# vpn-pi: models and proofs

Dafny models of the seven parts of vpn-pi that keep state, run a protocol, or print something that
must read back, and proofs of what they promise. `dafny verify dfyconfig.toml` checks everything.

| part | modules | shape |
|---|---|---|
| Canonical JSON, envelope, signed kinds | `Canonical`, `CanonicalOrder`, `CanonicalProofs`, `CanonicalForm`, `Envelope`, `Signables` | a printer and a full JSON parser over 16-bit code units; symbolic signatures and seals |
| Friending | `Friends`, `FriendNet`, `FriendInvariant`, `FriendSteps`, `FriendTheorems`, `FriendAttack` | the class `FriendBook` against functions on its data; many books, a replaying network, an attacker with its own keys, crashes and restarts |
| Internet gate | `InternetGate`, `GateWorld`, `GateSafety`, `GateRecovers`, `GateCanary`, `GateScripts`, `GateReopen`, `GateTiming` | the class `Gate` with one method per stretch of code between awaits; a world of overlapping requests, a timer, failing commands, the real egress, the nonce file |
| Alert relay | `Shipper`, `ShipperProofs`, `Relay`, `Mesh`, `MeshWindow`, `Pipeline`, `PipelineProofs`, `PipelineTheorems` | a shipper process, the hub's ring, the master's aggregate; lost posts, lost answers, crashes, evictions, intruders |
| Self-heal daemon | `Heal`, `HealthLadder`, `Alert`, `SelfHeal`, `Breaker`, `BreakerEdge`, `Reasserts`, `DaemonRuns`, `DaemonEvents`, `DaemonFeed`, `DaemonRoster`, `DaemonRows`, `DaemonSnapshots` | the class `Daemon` with its in-place history slice; runs of read and failed ticks; the island's reader of its journal |
| Replay and guessing guards | `Messages`, `MessageReplay`, `MessageRestart`, `RateLimit`, `RateLimitRuns` | the classes `MessageBook` and `AttemptLimiter`; runs beside a history that forgets nothing |
| Invite codes, fingerprint | `Bytes`, `FriendCode`, `FriendCodeProofs` | a buffer written at a moving offset; 64-bit big-endian words; five-bit symbols |

`Wrappers` holds the two result shapes. Each imperative unit of the source is a class or a method with
loops, proved equal to a function on values; the theorems are about those functions over whole runs.
A run is any finite script of labelled steps, so a statement about `Run` covers every interleaving,
failure and crash those labels can express.

## What comes out of the proofs

Beyond the properties that hold, some hold under a condition only. Each condition is proved exact or
comes with a run that breaks the property without it.

- A canary opens the gate at most once if and only if nonces are kept for at least two freshness windows
  plus the delay from verifying to opening: a future-dated canary is usable over two windows. The default
  (3600 s against 120 s) satisfies it.
- The nonce of a request whose gate command fails is not saved (`island/src/main.ts:636-637`), so after a
  restart its canary can open the gate again. Exactly: a canary the process has opened opens again in some
  continuation if and only if it is still fresh and its nonce is not in the file, or was saved so early that
  it is pruned before the canary's last use. An answered canary never does.
- The shipper numbers events by place as long as the first unshipped event, with all that are not older,
  fits its window, and only then does a cycle pick the unshipped rest. Ties in time are shipped in source
  order; a group of them larger than the window is cut at its end. Two windows of ids, which the
  trim keeps, are enough.
- The breaker's window is open at its start. Closed intervals stay within the limit if and only if they are
  shorter than the window; one as long as the window holds at most, and under every configuration that may
  act can hold, twice the limit.
- An attacker that signs a token of its own with a nonce copied from Alice's, gets Bob to accept it, and
  passes Bob's accept on to Alice makes Alice list Bob while Bob does not list Alice. It is the one way
  agreement fails: the acceptance behind a confirmed accept is of the confirmed offer if and only if its
  token was not signed with an attacker's key.
- A departure is logged under the peer's short key, since its name and address left with it. Read from any
  tail of the journal without snapshots, the island's roster is right row by row if and only if no peer
  departed in that tail; the row of one peer is right if and only if it has not departed since its last told
  change, or is back with the state that change told. A peer read once as degraded and then removed stays
  on the roster.
- With `--snapshot` every present peer has a row after each tick, and it is right if and only if the peer is
  not in a restored hold that began at an earlier tick: the snapshot line, which knows thresholds only,
  overwrites `restored` with `ok` (`daemon/cmd/wg-selfheal/main.go:231-238`).
- `Object.fromEntries` and `Object.entries` move ids that read as array indices to the front, so after a
  restart the replay memory may evict such an id first; the bound on readmission holds over restarts for
  an id if and only if it is not of that form. `crypto.randomUUID` ids are not.
- `decodeInvite` undoes `encodeInvite` exactly for tokens with the fixed sizes, times not before 1970 (an
  earlier one wraps to a word that is no date) and texts that do not begin with a byte order mark (the
  decoder drops it).

## Model

| member | source | states |
|---|---|---|
| Canonical.EncodeString | island/src/core/canonical.ts:62-97 | the loop yields the quoted, escaped text of any code-unit string |
| CanonicalOrder.SortOrderFree | island/src/core/canonical.ts:50-55 | sorting members by key depends on the set of members alone |
| CanonicalForm.LessIsBelow | island/src/core/canonical.ts:50-52 | one name sorts before another exactly when it is a proper prefix of it or has the smaller code unit where they first differ |
| CanonicalForm.PrintedInOrder | island/src/core/canonical.ts:49-56 | an object prints every member once, of any two the one with the smaller name in that sense first |
| CanonicalProofs.EveryValueParsesBack | island/src/core/canonical.ts:33-60 | the text of every value parses back in front of any continuation that does not extend a number |
| CanonicalProofs.RoundTrip | island/src/core/canonical.ts:25-60 | parsing the canonical text gives the value back, up to the order of fields |
| CanonicalProofs.NormalCharacterizesSame | island/src/core/canonical.ts:46-56 | key-sorted forms are equal exactly when the values are, whatever the field order at any depth |
| CanonicalProofs.EncodeNormal | island/src/core/canonical.ts:46-56 | the text does not depend on key order |
| CanonicalProofs.TextIffSame | island/src/core/canonical.ts:25-60 | two values have one text exactly when they are the same value |
| CanonicalProofs.TextPrintable | island/src/core/canonical.ts:9-15 | every text is printable ASCII |
| CanonicalForm.EscapeForm | island/src/core/canonical.ts:62-97 | each code unit prints as itself, by its one short escape, or as \u with its value in four lower-case digits, and which of the three is fixed by the unit |
| CanonicalForm.TextCompact | island/src/core/canonical.ts:9-15 | no text has white space outside its strings |
| Envelope.OpenVerifySealSign | island/src/core/envelope.ts:32-89 | for any sound suite the recipient re-derives the signed bytes: accepts, and with which error it refuses, exactly by the trusted key |
| Envelope.TrustedPayloadArrives | island/src/core/envelope.ts:32-89 | a trusted sender's payload arrives unchanged |
| Signables.SignedTextInjective | island/src/core/friends.ts:78-92 | signed bytes of tokens, accepts, revokes, messages and canaries coincide only for the same kind and the same fields |
| Signables.MarkIsForeign | island/src/core/messages.ts:48-55 | of two kinds of signed object, each has a field name the other lacks |
| Signables.BodyValid | island/src/core/canary.ts:43-49 | every signed view is an object without repeated names, so the JSON theorems apply to it |
| Friends.FriendBook.FromJson | island/src/core/friends.ts:399-406 | a restarted book continues with exactly the data it saved |
| Friends.FriendBook.Issue | island/src/core/friends.ts:234-238 | the new book and token of issuing, or the date error with nothing changed |
| Friends.FriendBook.ReceiveToken | island/src/core/friends.ts:241-247 | the new book and answer of receiving, with its four refusals in order |
| Friends.FriendBook.AcceptRequest | island/src/core/friends.ts:250-265 | the new book and sealed accept, with expiry checked again |
| Friends.FriendBook.ConfirmAccept | island/src/core/friends.ts:268-285 | the new book and record of confirming, with its refusals in order |
| Friends.FriendBook.RevokeLocally | island/src/core/friends.ts:289-291 | removes one record and says whether there was one |
| Friends.FriendBook.EndFriendship | island/src/core/friends.ts:297-310 | removes the record and yields the signed notice, or neither |
| Friends.FriendBook.ReceiveNotice | island/src/core/friends.ts:317-340 | the new book and removed record, with its refusals in order |
| FriendTheorems.NoForgedFriendship | island/src/core/friends.ts:154-161 | against replay and attacker keys: a record for an honest key holds exactly the identity its owner signed into a token or accept with that nonce, and one made by confirm refers to an offer of this book |
| FriendTheorems.RecordsAreSigned | island/src/core/friends.ts:250-285 | every record of every book, an attacker's too, is of another node and backed by a version-1 token or accept of that peer's key with its nonce, accepted or confirmed in time |
| FriendTheorems.NeverOwnFriend | island/src/core/friends.ts:241-247 | no book, live or saved, ever lists its own key |
| FriendTheorems.ConfirmAgrees | island/src/core/friends.ts:268-285 | a confirmed record holds the peer's true keys, in time, and the peer had answered this very offer in time, or an attacker's token that copied its nonce |
| FriendTheorems.ConfirmAgreesIff | island/src/core/friends.ts:250-285 | behind a confirmed accept there is an acceptance of the peer's, and it is of this very offer if and only if its token was not signed with an attacker's key |
| FriendAttack.CopiedNonceDisagrees | island/src/core/friends.ts:241-285 | for any two nodes and attacker, a run from the start that ends with Alice listing Bob, Bob listing Eve and not Alice, and Alice's offer never answered |
| FriendTheorems.HonestAgreement | island/src/core/friends.ts:250-285 | among honest nodes over a dropping, repeating, reordering network both sides hold each other's true keys under the offer's nonce, no later than its expiry |
| FriendTheorems.SingleUse | island/src/core/friends.ts:390-406 | an offer is confirmed, and a notice obeyed, at most once, restarts included |
| FriendTheorems.RevokeIsOwners | island/src/core/friends.ts:94-97 | an obeyed notice ends only its signer's friendship, was signed by that key's owner, and is not older than the friendship by more than 120 s |
| FriendTheorems.ObeyRemovesOne | island/src/core/friends.ts:317-340 | delivering a notice removes the signer's record and nothing else, or changes nothing |
| FriendTheorems.OnlyHandshakesAdd | island/src/core/friends.ts:256-285 | in any step of any node only accept and confirm put a record into a book, besides a restart restoring a saved one |
| FriendTheorems.HandshakeCompletes | island/src/core/friends.ts:234-285 | the four calls in time, with a fresh nonce, leave both books holding each other, the nonce spent and neither request nor offer left |
| FriendTheorems.HandshakeIffInTime | island/src/core/friends.ts:234-285 | receiving, accepting and confirming a fresh offer each succeed if and only if they come no later than its expiry |
| FriendTheorems.UsedTokenRefused | island/src/core/friends.ts:241-247 | a token under a nonce the node has accepted or confirmed is refused from then on and changes nothing |
| FriendTheorems.RevokeCompletesIff | island/src/core/friends.ts:297-340 | a notice Alice issues takes her off the book of Bob, who holds her true identity and has not seen its nonce, if and only if it is dated no more than 120 s before his record |
| InternetGate.Gate.constructor | island/src/core/gate.ts:188-194 | a new process starts in `island` with the saved nonces and nothing else |
| InternetGate.Gate.PruneConsumed | island/src/core/gate.ts:203-206 | the deleting walk keeps exactly the nonces inside the prune period |
| InternetGate.Gate.Open | island/src/core/gate.ts:203-210 | the call up to the LLM: prune, refuse a spent nonce, spend it |
| InternetGate.Gate.Answered | island/src/core/gate.ts:210-216 | after the LLM: queue the open, log the denial, or nothing when the call failed |
| InternetGate.Gate.Locked | island/src/core/gate.ts:155-162 | a body is queued behind the last queued one |
| InternetGate.Gate.TimerFires | island/src/core/gate.ts:165-171 | firing disarms the timer and queues a close |
| InternetGate.Gate.StartBody | island/src/core/gate.ts:217-224 | an open disarms the timer before its command, a close does not |
| InternetGate.Gate.CommandEnded | island/src/core/gate.ts:223-247 | the outcome of a gate command is noted, and nothing else changes before its body goes on |
| InternetGate.Gate.FinishBody | island/src/core/gate.ts:225-269 | state, timer, attempts and log after a command that succeeded or failed |
| GateSafety.NeverLeftOpen | island/src/core/gate.ts:216-269 | in every run, state `internet` has a timer armed, a close coming, or an open in its command; no deadline is further than max(TTL, 60 s) |
| GateSafety.LockIsFifo | island/src/core/gate.ts:153-162 | one command at a time, in call order; a rejected body does not block the next |
| GateSafety.StateIsTheLogs | island/src/core/gate.ts:231-237 | the state, closing time included, is the replay of the audit log |
| GateSafety.EgressIsKnown | island/src/core/gate.ts:247-250 | within one process, open egress with no command running means state `internet` |
| GateCanary.OpensAtMostOnce | island/src/core/gate.ts:201-208 | within one process no canary reaches the open command twice, whatever overlaps |
| GateCanary.AnsweredNeverReopens | island/src/main.ts:626-643 | once its request was answered, a canary never reaches the open command again, restarts included |
| GateScripts.OnceIffPruneOutlasts | island/src/core/canary.ts:82-87 | at most once in every run, if and only if the prune period is at least two windows plus the delay |
| GateScripts.ShorterPruneReopens | island/src/core/gate.ts:146-150 | any shorter period has a run that opens twice with one canary |
| GateReopen.ReopensIff | island/src/main.ts:629-637 | a canary this process has opened opens again in some continuation, restarts included, if and only if it is still fresh and its nonce is missing from the file or is pruned before its last use |
| GateReopen.FailedOpenCanReopen | island/src/core/gate.ts:223-230 | for every fresh canary, a run whose open command fails and that ends in such a state, nothing left to answer |
| GateRecovers.CanAlwaysClose | island/src/core/gate.ts:216-269 | from every state a process reaches, some continuation with no new request and no failing command ends in `island` with egress closed |
| GateTiming.LogIsComplete | island/src/core/gate.ts:211-269 | in every run the audit log holds one entry for each command that succeeded, in call order, and one for each denial, each under the time of its call, and nothing else |
| GateTiming.BodiesAreTimed | island/src/core/gate.ts:199-244 | every queued body carries the clock of the call of `open` or `close` it stems from |
| GateTiming.RetrySchedule | island/src/core/gate.ts:247-258 | in every run a close that fails as the k-th since the last success is tried again after 2, 4, 8, 16, 32 s, and after 60 s from the sixth on |
| GateTiming.FailedReopenCloses | island/src/core/gate.ts:225-230 | in every run, when an open fails while the state is `internet`, the reclose is due at once and queues a close |
| GateTiming.IslandIsQuiet | island/src/core/gate.ts:260-267 | in every run a timer is armed in `island` only after a close that failed since the last command that succeeded |
| GateTiming.WindowLasts | island/src/core/gate.ts:231-236 | a window that opens with no close queued stays open for its whole length in every continuation without a close on demand, a failing command or a restart |
| Shipper.ShipperProcess.PickUnseen | gui-and-app/backend/app/ids_shipper.py:67 | the comprehension keeps exactly the unseen events, in order |
| Shipper.ShipperProcess.ShipOnce | gui-and-app/backend/app/ids_shipper.py:66-83 | number, seen ids, saved file and result of a cycle under any answers of the hub |
| Shipper.ShipperProcess.BoundSeen | gui-and-app/backend/app/ids_shipper.py:126-130 | the list keeps its newest two windows and the set follows it |
| ShipperProofs.SortRestores | gui-and-app/backend/app/ids_shipper.py:68 | sorting the newest-first feed restores the journal, events of one time in source order |
| ShipperProofs.ShipsTheRestIff | gui-and-app/backend/app/ids_shipper.py:67-68 | a cycle picks exactly the unshipped rest of the journal, in order, if and only if the first unshipped event and all not older fit the window and every shipped event still shown is remembered |
| ShipperProofs.RememberedOk | gui-and-app/backend/app/ids_shipper.py:126-130 | two windows of ids suffice: no shipped event the source still shows is ever forgotten by the trim |
| Relay.RelayBuffer.Add | gui-and-app/backend/app/relay.py:89-103 | the stored rows and the new id after a deposit |
| Relay.RelayBuffer.Pull | gui-and-app/backend/app/relay.py:105-115 | the batch and cursor handed out, the table unchanged |
| Relay.DepositKeepsTail | gui-and-app/backend/app/relay.py:89-103 | the table is always the newest `cap` rows of all ever deposited |
| Relay.DrainIsNext | gui-and-app/backend/app/relay.py:105-115 | a drain hands out the next surviving rows in order and moves the cursor to their last |
| Mesh.MeshSource.PullAndMerge | gui-and-app/backend/app/sources/mesh.py:83-97 | entries, cursor and rejections after merging a batch, or nothing changed without one |
| Mesh.TakeAllOk | gui-and-app/backend/app/sources/mesh.py:88-120 | keys stay distinct, every entry was carried by a verified row, and nothing verified is missing before the first eviction |
| MeshWindow.AggregateIsNewest | gui-and-app/backend/app/sources/mesh.py:83-97 | in every run the aggregate is the newest entries of all ever inserted, as many as the cap allows, oldest first; also the counts of inserted and rejected rows |
| MeshWindow.StandsUntilPushedOut | gui-and-app/backend/app/sources/mesh.py:95-96 | an entry stands until as many have been inserted after it as the cap allows, and there are never more than that |
| MeshWindow.DrainedAlertStands | gui-and-app/backend/app/sources/mesh.py:88-96 | a drained authentic alert stands in the aggregate as long as fewer than the cap were inserted after it |
| PipelineTheorems.NumberIsPlace | gui-and-app/backend/app/ids_shipper.py:70-79 | whatever the failures, a row a node signed under k carries the k-th event of its journal |
| PipelineTheorems.CycleShipsTheRest | gui-and-app/backend/app/ids_shipper.py:66-83 | in every run a cycle ships from the next event on: trimming never causes a re-ship |
| PipelineTheorems.PicksTheRestIffFits | gui-and-app/backend/app/ids_shipper.py:66-83 | in every state of every run a cycle picks the unshipped rest if and only if the first unshipped event and all not older fit the window |
| PipelineTheorems.CycleAdvances | gui-and-app/backend/app/ids_shipper.py:66-83 | in every run a cycle moves the number by exactly the posts acknowledged before the first that was not, remembers the newest ids of at most two windows, and saves just that |
| PipelineTheorems.AtMostOnce | gui-and-app/backend/app/sources/mesh.py:92-96 | no event of an honest node stands in the aggregate twice |
| PipelineTheorems.ExactlyOnceIfDrained | gui-and-app/backend/app/sources/mesh.py:83-97 | before the first eviction at the master, an alert whose row was drained stands in it exactly once |
| PipelineTheorems.EverythingArrives | gui-and-app/backend/app/ids_shipper.py:66-83 | a master that has caught up, missed no row and evicted nothing holds every shipped event exactly once |
| PipelineTheorems.PullMissesOnlyEvicted | gui-and-app/backend/app/relay.py:96-115 | a pull passes over a row only after the hub evicted it, never when at most `cap` rows behind |
| Heal.CountRecent | daemon/internal/heal/decide.go:67-76 | the loop counts a peer's actions of one kind after the cutoff, boundary excluded |
| Heal.DecideAll | daemon/internal/heal/decide.go:20-29 | the loop yields the decisions in peer order |
| Heal.Step | daemon/internal/heal/status.go:78-94 | the loop yields every peer's new state and the next memo |
| HealthLadder.StretchState | daemon/internal/heal/status.go:100-120 | after an unhealthy tick a peer is ok exactly when a later tick of the healthy stretch is the restored hold away from its first |
| HealthLadder.OkMeansHeldHealthy | daemon/internal/heal/status.go:108-120 | ok after stale or degraded means an unbroken healthy stretch of the restored hold |
| HealthLadder.HealthyBecomesOk | daemon/internal/heal/status.go:108-120 | healthy from some tick on: ok at every tick the hold or more later, and ok once reached is kept |
| HealthLadder.RenewingLinkIsOk | daemon/internal/heal/types.go:137-142 | a link renewing faster than both thresholds becomes ok |
| Alert.Diff | daemon/internal/alert/alert.go:53-94 | the change events in input order, then one gone event per vanished peer in key order, and the next states |
| Alert.Vanished | daemon/internal/alert/alert.go:78-84 | collecting in any order and sorting yields the key-ordered list of vanished peers |
| Alert.DiffDetermined | daemon/internal/alert/alert.go:51-52 | the events do not depend on the order the map is walked in |
| Alert.DiffMovesView | daemon/internal/alert/alert.go:53-94 | replaying one tick's events takes a follower from the old states to the new ones |
| DaemonEvents.EachMoveIsLogged | daemon/internal/alert/alert.go:53-94 | in every run a tick logs exactly one event for each peer whose state moved, in read order and with what the read says of it, then one for each peer that left, in key order, with the states from before |
| SelfHeal.PruneHistory | daemon/cmd/wg-selfheal/main.go:216-224 | the in-place filter leaves at the front exactly the records after the cutoff and the rest of the array alone |
| SelfHeal.Daemon.DropAbsent | daemon/cmd/wg-selfheal/main.go:202-212 | the cache keeps exactly the present peers |
| SelfHeal.Daemon.RememberEndpoints | daemon/cmd/wg-selfheal/main.go:187-196 | the cache after recording every healthy endpoint |
| SelfHeal.Daemon.Append | daemon/cmd/wg-selfheal/main.go:168 | one record more, in place or in a larger copy |
| SelfHeal.Daemon.Remediate | daemon/cmd/wg-selfheal/main.go:149-182 | what is pushed, and one attempt recorded for each push whether or not it works |
| SelfHeal.Daemon.Tick | daemon/cmd/wg-selfheal/main.go:103-141 | the whole next state, the pushes and the logged events of a tick; a failed read changes nothing |
| Breaker.PruneKeepsDecisions | daemon/internal/heal/decide.go:20-76 | decisions on a pruned history are those on the whole of it, now and later |
| Breaker.PrunedRunRefines | daemon/cmd/wg-selfheal/main.go:112-140 | a run with pruning has the memo, cache and attempts of the run that never prunes |
| Breaker.BreakerHolds | daemon/cmd/wg-selfheal/main.go:164-168 | in every run with an ordered clock and distinct peers, any half-open window holds at most the limit of attempts on one peer |
| BreakerEdge.KeepsLimitIffShorter | daemon/internal/heal/decide.go:65-71 | for every configuration that may act, all runs keep the closed intervals of a length within the limit if and only if that length is below the window |
| BreakerEdge.ClosedHoldsTwice | daemon/internal/heal/decide.go:65-71 | a closed interval as long as the window holds at most twice the limit |
| BreakerEdge.TwiceReached | daemon/internal/heal/decide.go:65-71 | for every configuration that may act, a run that reaches twice the limit |
| Reasserts.DecidedIff | daemon/internal/heal/decide.go:20-64 | after any run a tick decides on exactly one action for each dead peer and none for another: a re-assert while the run has room in the window, then a bounce only at a spoke that may, else an alert |
| Reasserts.PushedIff | daemon/cmd/wg-selfheal/main.go:138-182 | after any run a tick pushes an endpoint for a peer if and only if it is dead, the window has room, a healthy tick saw an endpoint, and it is no dry run; it pushes the one seen last, once |
| Reasserts.HistoryIsRecent | daemon/cmd/wg-selfheal/main.go:112 | after a successful tick the history holds exactly the attempts of the run that are inside the window |
| DaemonRuns.RunWalksLadder | daemon/cmd/wg-selfheal/main.go:103-124 | the memo of a peer present at every read is the ladder over what was seen of it, failed reads leaving no trace |
| DaemonRuns.RenewingPeerReadsOk | daemon/internal/heal/types.go:137-149 | in a daemon run such a peer that renews in time reads ok once the hold has passed |
| DaemonRuns.PeerReadsItsAge | daemon/internal/heal/status.go:100-120 | in every run a tick reads stale and degraded by the age of the last handshake alone: each exactly between its thresholds, whatever came before |
| DaemonRuns.DeadLinkDegrades | daemon/internal/heal/status.go:100-107 | a link whose handshakes stopped reads stale at exactly the later ticks between the two thresholds and degraded at exactly those from the second on |
| DaemonRuns.NeverUnhealthyReadsOk | daemon/internal/heal/status.go:108-120 | a peer younger than both thresholds at every read is ok from its first read on |
| DaemonRuns.NewPeerReadsOk | daemon/internal/heal/status.go:78-94 | after any run, a peer that was not known and is read healthy is ok |
| DaemonRuns.RunCachesLastHealthy | daemon/cmd/wg-selfheal/main.go:184-212 | the endpoint a re-assert pushes is the one seen at the peer's last healthy tick |
| DaemonRuns.CacheOnlyPresent | daemon/cmd/wg-selfheal/main.go:198-212 | a key gone from the interface is gone from the cache |
| DaemonRuns.StreamIsLossless | daemon/cmd/wg-selfheal/main.go:122-136 | over whole runs the folded stream gives every present peer its memo state and no other peer |
| DaemonFeed.ReadDaemon | island/src/core/sysinfo.ts:191-216 | the reading loop computes the roster |
| DaemonFeed.LastWordWins | island/src/core/sysinfo.ts:195-215 | a peer is listed with a state and endpoint exactly when the last line that gives it any, a transition by `to` or a snapshot by `status`, gives it those |
| DaemonFeed.ToldIsEnough | island/src/core/sysinfo.ts:196-208 | unparseable, unlabelled and other lines change nothing |
| DaemonRoster.RosterShowsMemo | island/src/core/sysinfo.ts:191-216 | read from any tail of the journal without departures and snapshots, every row shows the daemon's state of the peer it names, and from the whole journal a missing row means ok |
| DaemonRoster.RosterTrueIffNoneGone | daemon/internal/alert/alert.go:75-92 | read from any tail, every row names a present peer and shows its state if and only if no peer departed in that tail |
| DaemonRows.RowIsLastTold | island/src/core/sysinfo.ts:196-213 | a peer has a row under its label exactly when the tail tells of it, and the row is that of the last event that does, departures aside |
| DaemonRows.RowRightIff | daemon/internal/alert/alert.go:75-92 | the row of one peer is right if and only if it has not departed since its last told change, or is back with the very state that change told |
| DaemonRows.DepartedPeerStays | island/src/core/sysinfo.ts:191-216 | for any peer with a label of its own, a daemon run after which no peer is known and the roster still shows it as degraded |
| DaemonSnapshots.Observe | daemon/cmd/wg-selfheal/main.go:228-246 | the loop writes one snapshot line for each peer |
| DaemonSnapshots.SnapshotRowRightIff | daemon/cmd/wg-selfheal/main.go:114-136 | with snapshots, after each successful tick of any run every present peer has a row, right if and only if it is not in a restored hold from an earlier tick, where the row says ok |
| Messages.MessageBook.Append | island/src/core/messages.ts:119-124 | the peer's log gains the message and keeps its newest 500 |
| Messages.MessageBook.DropOld | island/src/core/messages.ts:131-132 | the deleting walk keeps exactly the marks inside the horizon |
| Messages.MessageBook.MarkSeen | island/src/core/messages.ts:129-138 | false and unchanged on a known id; else pruned, capped and extended |
| Messages.MessageBook.Guard | island/src/core/messages.ts:87-96 | accepts exactly fresh messages with a new, non-empty id |
| Messages.LogKeepsNewest | island/src/core/messages.ts:119-124 | after any appends a log is the last 500 of all messages, in order |
| MessageReplay.ReadmissionNeedsCrowd | island/src/core/messages.ts:126-138 | a message is accepted again only after 4096 other ids in between: for every id without restarts, for name-like ids with them |
| MessageReplay.TracksReloaded | island/src/core/messages.ts:149-158 | writing out and reading back keeps what the guard knows of name-like ids |
| MessageReplay.NewIdAcceptedIffFresh | island/src/core/messages.ts:87-96 | in every run, restarts included, a message under an id not accepted before is accepted if and only if it is at most 15 minutes old and at most 5 minutes ahead |
| MessageReplay.MemoryIsBounded | island/src/core/messages.ts:126-138 | after every acceptance the memory holds at most 4096 marks, the accepted one last and the others at most 20 minutes old |
| MessageRestart.IndexIdReadmitted | island/src/core/messages.ts:149-158 | every index-like id can be accepted again after one other id and a restart |
| MessageRestart.KeptApartIffName | island/src/core/messages.ts:129-158 | over all runs with restarts the bound holds for an id exactly when it is not index-like |
| RateLimit.AttemptLimiter.Recent | island/src/core/ratelimit.ts:18-24 | the failures still in the window, which are also what stays stored |
| RateLimit.AttemptLimiter.Locked | island/src/core/ratelimit.ts:27-29 | locked exactly when the windowed failures reach the limit |
| RateLimit.AttemptLimiter.Fail | island/src/core/ratelimit.ts:32-36 | the trimmed entry gains the new stamp |
| RateLimit.RequireOperator | island/src/main.ts:387-396 | answer and entry of the operator check |
| RateLimit.RequireAdmin | island/src/main.ts:400-410 | answer and entry of the admin check, mock and unconfigured nodes included |
| RateLimitRuns.LockAnswersFullHistory | island/src/core/ratelimit.ts:18-29 | the lock test sees exactly the windowed failures of a history that discards nothing |
| RateLimitRuns.AnswersAsOwed | island/src/main.ts:387-410 | after any run both checks answer as the requests alone demand: locked by the wrong tokens of the window, else by the token |
| RateLimitRuns.WrongTokenNeverAllowed | island/src/main.ts:400-410 | off a mock node no run lets a wrong token through, nor any admin request where no admin token is configured |
| RateLimitRuns.RightTokenClears | island/src/main.ts:387-410 | a right token is allowed exactly when fewer than `max` wrong ones are in the window, and clears its address |
| RateLimitRuns.GuessesAreWrong | island/src/main.ts:387-410 | what is counted are wrong tokens in requests of that address |
| RateLimitRuns.GuessesAreBounded | island/src/main.ts:387-410 | behind both checks together, since an address's last right token any half-open window holds at most `max` of its wrong ones that reached the check |
| RateLimitRuns.NoEmptyEntries | island/src/core/ratelimit.ts:18-24 | in every run an address is remembered only with failures |
| FriendCode.Encode | island/src/core/friendcode.ts:20-45 | the packed bytes, or the error, of any token |
| FriendCode.Decode | island/src/core/friendcode.ts:47-75 | the token, or the error, of any bytes, short ones included |
| FriendCode.Fingerprint | island/src/core/friendcode.ts:88-98 | the loops spell the first fifty bits as ten symbols |
| FriendCodeProofs.RoundTripIff | island/src/core/friendcode.ts:18-75 | decoding an encoded token gives it back if and only if sizes, times and texts are as stated |
| FriendCodeProofs.PackedFields | island/src/core/friendcode.ts:18-43 | where each field of an encoded token stands, the times as big-endian words and the lengths before the texts |
| FriendCodeProofs.DecodesIff | island/src/core/friendcode.ts:47-75 | exactly which bytes decode, and what a code that was cut short decodes to |
| FriendCodeProofs.DecodeThenEncode | island/src/core/friendcode.ts:47-75 | encoding what a complete code decodes to gives its bytes back exactly when no text in it begins with a byte order mark |
| FriendCodeProofs.FingerprintForm | island/src/core/friendcode.ts:85-98 | a code is `ISL-`, five symbols, a dash and five symbols, none of them I, L, O or U |
| FriendCodeProofs.FingerprintSpellsTopBits | island/src/core/friendcode.ts:88-98 | read symbol by symbol, a code is exactly the first fifty bits of the hash |
| FriendCodeProofs.CodesEqualIffTopBits | island/src/core/friendcode.ts:79-83 | two keys share a code if and only if their hashes share six bytes and the top two bits of the seventh |

## Left out

- Times are whole milliseconds (nanoseconds in the daemon, seconds or any unit in the alert relay); ISO
  text and its parsing are not modelled. A signable date is a number, or the text of something that is no date.
- Base64 is the identity, signatures and seals are symbolic or any sound suite, and a hash is any 32 bytes.
- JSON numbers are the safe integers. Printing refuses fractions; parsing numbers with a fraction or an
  exponent is not modelled, nor is the prototype key `__proto__`.
- Friends.FriendBook.ReceiveToken: one step; two overlapping calls of `receive`, `accept` or
  `receiveRevoke` on one book, which await between check and write, are excluded.
- `friendByWg0`, `meshWg0` and the registry are easy lookups. Persisting the book, the messages and the
  nonces is one atomic step each; overlapping writes of one file are excluded.
- GateSafety.EgressIsKnown: not over restarts, nor is GateRecovers.CanAlwaysClose: a process that died with the gate open leaves egress open
  and its successor starts in `island`.
- The keyword check of a canary, the reasons in the log and the LLM itself, of which only the verdict matters.
- PipelineTheorems.NumberIsPlace: assumes, at each cycle, that the backlog fits the window, an append-only
  source whose times do not run backwards, listing events of one time in the order of appending (the host
  source lists them by sensor, so a later find that ties with an earlier one of another sensor is outside
  it), and a feed that is not served from a cache; the brute-force summary events, which keep one id while
  their time moves, are outside it.
- Shipper.ShipperProcess.constructor: starts from the file that was last saved. `_load_state` answers a lost
  or unreadable file with number 0 and no ids, after which numbers are given out a second time; every
  theorem on the pipeline assumes a readable file.
- Merging with the master's local feed, time-zone repair of event times, and HTTP limits.
- Heal.Step: durations are unbounded integers; saturation of Go's `Sub` beyond 292 years is not modelled.
- DaemonFeed.ReadDaemon: the order of the returned list and the handshake age, which is for display only.
- DaemonRoster.RosterTrueIffNoneGone: is about a journal without snapshot lines, and assumes each peer keeps one label, no two share one, and none is the
  short key of a peer.
- Interface bounce, which is decided and never executed; action reasons and log text.
- MessageReplay.ReadmissionNeedsCrowd: an acceptance lost in a crash before it was saved, and so never
  answered, does not count as an acceptance.
- `thread`, `peers` and the unguarded form of `openMessage`.
- FriendCode.Encode: label and address are their UTF-8 bytes; replacement of ill-formed text is not
  modelled, nor are the code's prefix and surrounding blanks.
- The link and ban readers of `sysinfo.ts`, the settings and error helpers of `main.ts`.
- `codeMatches`, `encodeReply`, `decodeReply`, the file share, registry, event store, view tokens, user
  interface, deploy scripts, systemd units and firewall templates.
