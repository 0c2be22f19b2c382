# Inertia relayer: a verified model

The relayer sits between a Solana validator, the clients that send it packets, and a block engine.
It delays every packet and bundle by 100 ms, and while they wait a remote server may name
transaction signatures that are to be blocked. It serves packets to the one validator that has
authenticated itself, and mirrors bundles over a reconnecting stream. This project models that
behaviour in Dafny and proves what it promises, over every input, every run and every interleaving.

`dafny verify dfyconfig.toml` checks everything.

## How the model is laid out

* **Filtered delay line** (`src/proxy/mod.rs`). `Packets` says what filtering means. `FilterSets` is the
  blocked-signature table with its time to live, cached size and three filters, as a class in which a
  sweep and a filter are atomic and an insert is two steps: the clock read that dates it, and its effect.
  `FilterSetConcurrency` splits all of these where threads can interleave (lock, each clock read with its
  table update, size store, unlock, lock-free size load) and proves that the coarser view is right: every
  call takes effect at one instant within the call, and inserts are dated in the order of their effects.
  `DelayLines` holds the two loops with their queues; the steps of other threads' inserts and sweeps
  happen between any two of theirs, also while they wait. Each loop keeps a journal of all arrivals,
  releases and passes over its queue; `DelayJournals` says what a sound journal is, and the theorems about
  whole runs are about it.
* **Forwarder** (`src/relayer/forwarder.rs`). `Rebatching` cuts packets into chunks of 64, `Channels` is the
  bounded channel by contract, and `FanOut` says what the outcomes of attempts mean. `SubscriptionRuns` is
  the shared subscription map as a machine under every interleaving. `Forwarding` is the service with its
  event-loop arms; what it does is recorded as events of that machine, so its theorems hold of it.
  `RelayerPath` joins the delay thread and the forwarder.
* **Authentication** (`src/relayer/auth/`). `Challenges` is the expiry-ordered queue and the claims in
  tokens. `AuthRuns` is the service as a machine with one step per lock acquisition. `AuthCapacity`,
  `AuthLifecycle` (handlers one at a time), `AuthOverlap` (any handlers) and `AuthRefresh` prove
  properties of its runs, and `AuthExamples` builds runs that attain what they allow. `AuthService` is
  the handlers as code; what they do is recorded as events of the machine, so its theorems hold of them.
* **Mirror** (`src/proxy/mirror.rs`). `BundleFraming`, `CertPins` and `Reconnects`.

In the machines an event that is not enabled makes no step, so every list of events is a run, and
`After(.., i)` is the state after the first `i` events. Fields and variables marked `ghost`, and the
components the comments call auxiliary (`published`, `pushed`, `signed`, `pairs`, `retired`, serials),
record history and decide nothing.

## Where the code does less than one might expect

* `ResubscribedBeforeAttempt`: the forwarder removes by key what it saw closed through a snapshot. If the
  validator subscribes again after the snapshot, even before the failed attempt, its new and live
  subscription is removed. `RemovalIsExactUnlessResubscribed` proves this is the only way to lose one: a
  different subscription goes if and only if the key subscribed again after the snapshot.
* `OverlapSignsTwice`: two overlapping token requests obtain two pairs for one challenge.
  `TwoPairsExactly` proves when: if and only if both looked it up after its push and before it was first
  replaced, removed or swept out. With handlers one at a time it does not happen (`OneAtATime`).
* `ExpiredStillSigns`: a token request does not look at the challenge's expiry, so an expired challenge
  yields a pair. By `SignsExactly` it does so if and only if no sweep at or after its expiry, and no push
  or removal for its client, preceded the lookup.
* `RemovesReplacement`: a token request removes by address, and may remove a newer, live challenge.
  `RemovalIsExactUnlessReplaced`: if and only if that one was pushed after the lookup and still is stored.
* `OverlapAnswersTwice`: two overlapping challenge requests of one client get different challenges.
  `AnsweredExactly`: a live challenge is the answer if and only if it was stored at the lookup.
* `AccessNeverEnds`: any token the service signed can be refreshed, also one obtained by a refresh, so one
  pair gives access without end. `RefreshesAddUp` bounds what each refresh adds, and
  `RefreshBoundIsReached` shows that no less is true; `IssuedOnlyIsBounded` bounds the whole if only issued
  tokens are presented, and `DeeperLastsLonger` passes that bound from the second refresh on.
* `LateInsertOutlastsSweep`: an insert that is held up between its clock read and its effect may take effect
  when it is already a TTL old, after a sweep that found nothing. It then blocks until the next sweep.
  By `BlockedRightly`, what is blocked though it was a TTL old when the sweep began took effect after it.
* `CapacityBoundIsReached`: overlapping challenge requests overfill the store by one less than their
  number. `CapacityBound` proves they never do worse.
* `RoundTripExactlyWithinLimit`: the writer does not check the frame limit, so what it writes is read back
  as written if and only if every payload is within it. `FirstOversized` says what is read otherwise.

## Assumptions

Clocks are monotone and are read as often as the code reads them; atomics are sequentially consistent;
locks exclude; a channel is a bounded queue that reports full or closed; a timer is ready at a poll
exactly when its instant has been reached. A signature verifies by an uninterpreted predicate, and a
presented token verifies exactly when the service signed it. Protobuf encoding is an arbitrary partial
function. A packet marked for discarding has no readable payload, as in the packet library used.
Client addresses and public keys are byte strings.

## Model

| member | source | states |
|---|---|---|
| Packets.FirstSignature | src/proxy/mod.rs:54-56 | a signature exists exactly from 65 bytes on and is bytes 1 to 64 |
| Packets.MarkUnion | src/proxy/mod.rs:188-206 | marking by one set then another is marking by the union; marking is idempotent; an empty set marks nothing |
| Packets.RetainPacketsUnion | src/proxy/mod.rs:208-219 | the same laws for retaining packets |
| Packets.RetainBundlesUnion | src/proxy/mod.rs:221-235 | the same laws for bundles, each of which is kept or dropped whole |
| FilterSets.FilterSet.Insert | src/proxy/mod.rs:30-34 | an insert without interruption: dated within the call, in effect at its end; the table stays the latest insertions not yet swept |
| FilterSets.FilterSet.BeginInsert | src/proxy/mod.rs:32 | the clock read that dates an insert; nothing is blocked by it yet |
| FilterSets.FilterSet.FinishInsert | src/proxy/mod.rs:32-33 | the effect, at any later instant: the signature is recorded with its earlier date and the size follows |
| FilterSets.FilterSet.Sweep | src/proxy/mod.rs:44-51 | with one clock read per entry: everything a TTL old at the start goes, everything younger at the end stays |
| FilterSets.Requested | src/proxy/mirror.rs:238-243 | a datagram asks for an insertion exactly when it is the tag byte 0 and 64 more bytes |
| FilterSets.FilterSet.IngestFilter | src/proxy/mirror.rs:237-246 | exactly such a datagram inserts its signature |
| FilterSets.FilterSet.DiscardFiltered | src/proxy/mod.rs:188-206 | on either path, every packet of every batch is marked by the blocked set, at its position |
| FilterSets.FilterSet.FilterBePackets | src/proxy/mod.rs:208-219 | on either path, the packets kept are those the blocked set keeps, in order |
| FilterSets.FilterSet.FilterBeBundles | src/proxy/mod.rs:221-235 | on either path, the bundles kept are those the blocked set keeps, in order |
| FilterSetConcurrency.Reachable | src/proxy/mod.rs:21-51 | in every interleaving, the cached size equals the size of the published table; the lock holder's view is consistent |
| FilterSetConcurrency.StepKeepsInv | src/proxy/mod.rs:30-51 | each step leaves the published table alone or changes it by one atomic insert or sweep |
| FilterSetConcurrency.InsertTakesEffectOnce | src/proxy/mod.rs:30-34 | a finished insert changed the published table at exactly one of its steps, with a date within the call, no later than that step and no earlier than any date published before |
| FilterSetConcurrency.SweepTakesEffectOnce | src/proxy/mod.rs:44-51 | a finished sweep changed it at exactly one of its steps as a sweep within the call may, also when it trusted a zero size |
| FilterSetConcurrency.LateInsertOutlastsSweep | src/proxy/mod.rs:30-51 | a run in which an insertion a TTL old takes effect after a sweep |
| FilterSetConcurrency.FilterSeesOneInstant | src/proxy/mod.rs:188-235 | a filter call, locked or on the fast path, returns its request filtered by the table published at one instant within the call, and publishes nothing |
| FilterSetConcurrency.FilterItemsIsMarkAll | src/proxy/mod.rs:193-203 | filtering item by item under the lock is marking the whole list |
| FilterSetConcurrency.FilterItemsIsRetainAll | src/proxy/mod.rs:213-232 | filtering item by item under the lock is retaining packets, and bundles, from the whole list |
| DelayLines.RelayerDelay.Receive | src/proxy/mod.rs:160-172 | a batch is queued to be due one delay after its arrival; a timeout lasts until the front is due, or one idle tick when nothing waits; meanwhile inserts of others may be dated and take effect |
| DelayLines.RelayerDelay.ReleaseDue | src/proxy/mod.rs:176-182 | sends exactly the due front of the queue in order, each batch filtered at its own release after the turn's sweep; if the forwarder has gone after any number of sends, one batch is lost besides the queue |
| DelayLines.RelayerDelay.Iterate | src/proxy/mod.rs:159-183 | one turn extends the journal by what arrived and by one pass, which got through exactly when the thread goes on; then nothing due is queued, and after a timeout with a waiting batch at least one was sent |
| DelayLines.RelayerDelay.Run | src/proxy/mod.rs:157-184 | for all outcomes of receives and any number of sends the forwarder takes, the journal of the whole run is sound: arrivals are what was received, in order, one pass per receive, every batch is due one delay after it arrived, every pass has its own sweep, and the thread stops early only when disconnected or when a send fails |
| DelayLines.TurnsAreExact | src/proxy/mod.rs:174-182 | after every turn that got through, the batches sent are exactly those that had arrived a delay before its instant or earlier; sent, lost and queued are all that arrived, in order |
| DelayJournals.PassesAreExact | src/proxy/mod.rs:176-182 | the same of any delay line's journal |
| DelayJournals.BlockedRightly | src/proxy/mod.rs:174-235 | at any release, a signature is blocked only if an insertion in effect was younger than the TTL when the latest sweep began or took effect after it, and not blocked only if all in effect were so, and a TTL old, when it ended |
| DelayJournals.StopAtFirstNotDue | src/proxy/mod.rs:177 | when the front is not due nothing queued is, because items arrive in order and wait equally long |
| DelayLines.BatchLeaves | src/proxy/mod.rs:159-183 | every batch sent left in exactly one turn, having arrived before that turn's sweep, the last before its filtering, and a delay before the turn's instant |
| DelayLines.EndToEnd | src/proxy/mod.rs:159-206 | each packet of it leaves unmarked only if every insertion of its signature in effect was a TTL old at that sweep, is newly marked only for a younger one or one that took effect after it, and otherwise is unchanged; shorter packets are never marked |
| RelayerPath.ValidatorReceives | src/relayer/forwarder.rs:214-276 | from the k-th batch a subscriber gains, in order, some of the canonical chunks of the sendable packets that were retained; every insertion of the signature of one retained was a TTL old at the sweep of the batch's turn, and one withheld had a younger one |
| DelayLines.ResponseDelay.Poll | src/proxy/mod.rs:274-304 | the release arm runs exactly when something is due at the poll and no shutdown; then everything due goes and nothing else; a receive never overtakes a due item; on shutdown or close exactly the queue is lost |
| DelayLines.ResponseDelay.ReleaseDue | src/proxy/mod.rs:286-292 | the same release pass, recorded in the journal |
| DelayLines.ResponseDelay.OnRelease | src/proxy/mod.rs:118-129 | each kind of response goes through its own filter |
| DelayLines.ResponseDelay.Run | src/proxy/mod.rs:272-304 | for every sequence of polls and of what the channel yields, the journal is sound: what arrived is what was taken from the channel, in order; the loop ends early exactly on shutdown or at the channel's end, and then loses exactly the queue |
| DelayLines.ResponseLeaves | src/proxy/mod.rs:272-304 | every response sent left in exactly one pass, at least the delay after it arrived, filtered under the last sweep before its filtering |
| DelayLines.PacketsEndToEnd | src/proxy/mod.rs:208-219 | of a block-engine batch some packets are sent, in order, and the others withheld: every insertion in effect of the signature of one sent was a TTL old when that sweep ended, and one withheld had an insertion younger than the TTL when it began, or in effect only after it |
| DelayLines.BundlesEndToEnd | src/proxy/mod.rs:221-235 | the same for bundles, each of which passes or falls whole |
| Rebatching.Rebatch | src/relayer/forwarder.rs:220-240 | for exactly the packets that are not discarded and have a payload, in order, 64 to a chunk and the rest in the last: the packet sent has that payload in full, that meta data, no discard mark and stake 0 |
| Rebatching.CanonicalIsChunked | src/relayer/forwarder.rs:220-240 | the same of any canonical split, place by place |
| Rebatching.SendablePlaces | src/protos/convert.rs:4-22 | what is sent are the packets in those places, each with its whole payload |
| Rebatching.ChunkCount | src/relayer/forwarder.rs:220-240 | the number of chunks is the ceiling of the number of packets over 64 |
| Rebatching.CanonicalIsUnique | src/relayer/forwarder.rs:220-240 | only one list of chunks has these properties |
| Rebatching.MarkThenSkipIsRetain | src/relayer/forwarder.rs:222-227 | marking and then skipping what is marked sends exactly what the retaining filter would keep of the unfiltered output |
| Channels.Channel.TrySend | src/relayer/forwarder.rs:285-293 | the contract of a bounded channel: closed first, then full, else accepted at the end |
| FanOut.FanOutAccounting | src/relayer/forwarder.rs:247-275 | deliveries, drops and failures add up to chunks times subscribers |
| FanOut.TallyIsCount | src/relayer/forwarder.rs:255-273 | what the subscribers received together is the number of deliveries |
| FanOut.AttemptsFanOut | src/relayer/forwarder.rs:247-294 | growth of all subscribers' queues + drops + failures = chunks times subscribers; each queue grows by an in-order subsequence of the chunks, within capacity, by all of them if it stays and had room; no other queue grows |
| FanOut.GainIsDelivery | src/relayer/forwarder.rs:255-273 | each subscriber's queue gains exactly the chunks delivered to it, and nobody else's gains |
| FanOut.DeliveredInOrder | src/relayer/forwarder.rs:255-273 | those are an in-order subsequence of the chunks |
| FanOut.RoomMeansDelivery | src/relayer/forwarder.rs:278-294 | a subscriber that stays and had room for all chunks receives all of them |
| Forwarding.ForwarderService.AddSubscription | src/relayer/forwarder.rs:152-178 | accepted exactly when nobody or the same validator is subscribed; then it is the only subscription, on the new channel |
| Forwarding.ForwarderService.ConnectedValidator | src/relayer/forwarder.rs:39-47 | some key exactly when there is a subscription, and then its key |
| Forwarding.ForwarderService.Snapshot | src/relayer/forwarder.rs:242-245 | exactly the subscriptions of the moment, on distinct channels |
| Forwarding.ForwarderService.SendToAll | src/relayer/forwarder.rs:260-272 | one chunk to every subscriber: who gains, who is reported failed, how many are refused |
| Forwarding.ForwarderService.TryForward | src/relayer/forwarder.rs:278-294 | one attempt: who gains, which counter moves, that it fails only for the reason reported; it is an attempt of the machine |
| Forwarding.ForwarderService.ForwardPackets | src/relayer/forwarder.rs:214-276 | every chunk is tried on every subscriber of the snapshot; the outcomes determine the queues, the failed keys in order and the drop count, and account for everything |
| Forwarding.ForwarderService.DropConnections | src/relayer/forwarder.rs:296-306 | exactly the keys found closed are unsubscribed, and that is the machine's removal |
| Forwarding.ForwarderService.RemoveEach | src/relayer/forwarder.rs:301-305 | any keys, however often each is listed, are removed and no others |
| Forwarding.ForwarderService.HandleHeartbeat | src/relayer/forwarder.rs:308-331 | the subscriber gets the current count unless full or gone, and the count goes up by one; it is the machine's tick |
| Forwarding.ForwarderService.OnPackets | src/relayer/forwarder.rs:192-196 | without a batch the loop ends and nothing changes; else every chunk is accounted for on every subscriber of that moment, and exactly those found closed are dropped; refused attempts = reported + current counter |
| Forwarding.ForwarderService.OnHeartbeat | src/relayer/forwarder.rs:197-201 | the subscriber gets the count, or is dropped if found closed; refusals are accounted for |
| Forwarding.ForwarderService.OnDropLog | src/relayer/forwarder.rs:202-207 | what is reported is what is cleared |
| SubscriptionRuns.AlwaysSound | src/relayer/forwarder.rs:136-178 | in every interleaving: at most one subscription, never more than 50,000 messages in a channel, and of two heartbeats queued to a sender the later has the greater count |
| SubscriptionRuns.ValidatorsDoNotOverlap | src/relayer/forwarder.rs:152-178 | between two moments with different validators connected there is one with none |
| SubscriptionRuns.SnapshotTracks | src/relayer/forwarder.rs:242-245 | while the loop holds a snapshot its keys stay subscribed, on the same channel if and only if the key has not subscribed again |
| SubscriptionRuns.FailedExactly | src/relayer/forwarder.rs:242-331 | a key is reported failed if and only if an attempt with packets through the snapshot, or the heartbeat, found the snapshot's channel closed |
| SubscriptionRuns.RemovedExactly | src/relayer/forwarder.rs:296-306 | of the subscribers in the snapshot, the removal removes a key if and only if it was so found |
| SubscriptionRuns.RemovalIsExactUnlessResubscribed | src/relayer/forwarder.rs:296-306 | exactly the failed keys are removed, each seen closed; the subscription removed is another one if and only if the key subscribed again since the snapshot |
| SubscriptionRuns.ResubscribedBeforeAttempt | src/relayer/forwarder.rs:242-276 | a run that removes a live subscription made before the failed attempt |
| SubscriptionRuns.MissingCountsAreFullTicks | src/relayer/forwarder.rs:308-331 | while a sender stays subscribed and open, the counts it misses are exactly those of ticks with its channel full |
| Challenges.TopExists | src/relayer/auth/challenges.rs:37-55 | a store that is not empty has a top under the reversed order |
| Challenges.AuthChallenges.Peek | src/relayer/auth/challenges.rs:37-55 | the top under the reversed order is an entry of least expiry |
| Challenges.AuthChallenges.RemoveAllExpired | src/relayer/auth/challenges.rs:23-62 | popping from the top until it is live leaves, unchanged, exactly the entries whose expiry lies after one instant during the sweep |
| Challenges.LaterSweepSubsumes | src/relayer/auth/challenges.rs:53-62 | a later sweep removes at least what an earlier one would; sweeping twice is sweeping at the later time |
| Challenges.TokenTruncates | src/relayer/auth/interceptor.rs:30-57 | through a token claims keep their holder and lose less than a second, once; a token never outlasts its claims |
| AuthRuns.Reachable | src/relayer/auth/service.rs:180-303 | in every interleaving: each entry is the logged challenge of its own client with matching claims, each token is justified, no removed challenge is stored |
| AuthRuns.RootIsOrigin | src/relayer/auth/service.rs:331-364 | the token a chain of refreshes started from was issued, for a proven challenge of the same holder |
| AuthRuns.ProvesExactly | src/relayer/auth/service.rs:231-266 | a request is proven exactly if its key is the challenge's, its text is that key, a dash and the challenge, and its 64-byte signature is one of that text by that key |
| AuthRuns.Provenance | src/relayer/auth/service.rs:221-364 | every token, when signed, has the address and key of a challenge pushed before; for the root of its chain of refreshes, that key's signature over the expected text was verified |
| AuthRefresh.RefreshesAddUp | src/relayer/auth/service.rs:331-364 | in every run, a token reached by d refreshes expires no later than the challenge's refresh token plus d gains; a gain is an access lifetime and the time between two clock reads, less a nanosecond, cut to whole seconds |
| AuthRefresh.RefreshBoundIsReached | src/relayer/auth/service.rs:331-364 | for every d, and every time allowed between the clock reads, a run attains that bound |
| AuthRefresh.DeeperLastsLonger | src/relayer/auth/service.rs:331-364 | for every d from 2 on, a run passes the bound for issued tokens |
| AuthRefresh.IssuedOnlyIsBounded | src/relayer/auth/service.rs:331-364 | if the token presented was issued, the new one expires at most one gain after the challenge's refresh token |
| AuthRefresh.AccessNeverEnds | src/relayer/auth/service.rs:331-364 | for every instant a run with one pair signs a token valid beyond it |
| AuthRuns.GrantsAreBounded | src/relayer/auth/service.rs:62-66 | the three expiries of a challenge are the promised lifetimes after three clock reads, in order and already past; no token lasts longer from now than a refresh lifetime, or an access lifetime if obtained by a refresh |
| AuthCapacity.CapacityBound | src/relayer/auth/service.rs:146-199 | with N challenge requests in progress the store never exceeds the capacity less one plus N; with one, the capacity |
| AuthCapacity.CapacityBoundIsReached | src/relayer/auth/service.rs:146-199 | for every N at least 1, a run reaches that bound |
| AuthLifecycle.OneAtATime | src/relayer/auth/service.rs:139-321 | with handlers one at a time, no challenge yields two pairs and a live one stays stored for its client |
| AuthLifecycle.SameAnswerWhileLive | src/relayer/auth/service.rs:150-157 | in such runs, until it expires or its pair is signed, every decided request of the client is answered with the same challenge and none replaces it |
| AuthOverlap.StoredExactly | src/relayer/auth/service.rs:150-303 | in any run, a challenge is stored for its client exactly from its push until the first push or removal for the client, or sweep at or after its expiry |
| AuthOverlap.AvailableExactly | src/relayer/auth/service.rs:150-303 | what is stored for a client at any time is exactly the challenge of that client that is available in this sense |
| AuthOverlap.SignsExactly | src/relayer/auth/service.rs:221-303 | a token request gets a pair for a challenge if and only if it proves it and the challenge was available at its lookup, whatever was signed for it before |
| AuthOverlap.TwoPairsExactly | src/relayer/auth/service.rs:221-303 | a challenge yields more than one pair if and only if two requests with a proof both looked it up while it was available |
| AuthOverlap.NoPairAfterRemoval | src/relayer/auth/service.rs:221-303 | after a removal for the client, no request that looks it up later gets a pair for an earlier challenge |
| AuthOverlap.RemovalIsExactUnlessReplaced | src/relayer/auth/service.rs:303 | what a token request removes is another challenge than the one used if and only if that was pushed after its lookup and is still stored |
| AuthOverlap.AnsweredExactly | src/relayer/auth/service.rs:150-157 | a challenge request is answered with a live challenge if and only if that was available at its lookup |
| AuthOverlap.ReplacedOnlyByEarlierLookup | src/relayer/auth/service.rs:150-199 | a challenge that is not expired is replaced only by a request that looked up before it was pushed |
| AuthExamples.OverlapSignsTwice | src/relayer/auth/service.rs:221-303 | a run in which two overlapping requests get two pairs for one challenge |
| AuthExamples.ExpiredStillSigns | src/relayer/auth/service.rs:221-303 | a run in which an expired challenge yields a pair |
| AuthExamples.RemovesReplacement | src/relayer/auth/service.rs:303 | a run in which a token request removes a newer, live challenge |
| AuthExamples.OverlapAnswersTwice | src/relayer/auth/service.rs:150-199 | a run in which overlapping challenge requests of one client get different challenges |
| AuthService.AuthService.GenerateAuthChallenge | src/relayer/auth/service.rs:139-202 | exactly which requests are answered and which status the others get; a challenge whose expiry lies ahead is returned and kept; a new one replaces only one whose expiry has come, and lasts the promised 1,800 and 180,000 seconds from now; errors change nothing |
| AuthService.AuthService.GenerateAuthTokens | src/relayer/auth/service.rs:204-321 | a pair is given exactly to a client with a stored challenge that presents its key, the text of key, dash and challenge, and a good signature of it; the tokens carry the challenge's claims in whole seconds and are those the recorded run signs; the challenge is used up; every other request gets its status and changes nothing |
| AuthService.AuthService.RefreshAccessToken | src/relayer/auth/service.rs:323-375 | a token signed here and not expired yields an access token for the same holder, dated from now |
| AuthService.AuthService.RemoveAllExpired | src/relayer/auth/service.rs:98-112 | the expiry task's sweep is a sweep of the machine |
| AuthService.NeverSignsTwice | src/relayer/auth/service.rs:139-321 | after any sequence of requests handled one at a time, no challenge has yielded two pairs and the store is within capacity |
| BundleFraming.Le32RoundTrip | src/proxy/mirror.rs:275 | a length survives up to its truncation to 32 bits |
| BundleFraming.WriteBundles | src/proxy/mirror.rs:268-283 | the stream is, for the responses that encode, in order: the four bytes of the length, least significant first, and the payload |
| BundleFraming.StreamIsLaidOut | src/proxy/mirror.rs:275-276 | byte for byte, where each frame lies and what its header holds |
| BundleFraming.ReadBundleStream | src/proxy/mirror.rs:405-429 | reads exactly the complete frames, by lengths least significant byte first, up to where fewer than four bytes are left or the length is over 4,194,304 or more than what is left, or fewer after a shutdown; and yields those that decode |
| BundleFraming.ParsesOneWay | src/proxy/mirror.rs:405-429 | a byte stream has only one such reading |
| BundleFraming.RoundTripExactlyWithinLimit | src/proxy/mirror.rs:269-283 | what is written is read back as written if and only if every payload is within the frame limit |
| BundleFraming.FirstOversized | src/proxy/mirror.rs:410-418 | the first payload over the limit ends the reading, with all before it read, if its length as written is over the limit; else that many of its bytes are read as a payload and the rest as further frames |
| BundleFraming.ResponsesArrive | src/proxy/mirror.rs:268-283 | responses that encode within the limit and decode back arrive as sent |
| BundleFraming.BadFrameIsSkipped | src/proxy/mirror.rs:420-428 | a stream with a frame that does not decode is read as the same messages as the stream without it |
| CertPins.HexVal | src/proxy/mirror.rs:460-467 | defined exactly on hex digits, and the digit's value prints as its lower case |
| CertPins.HexEncode | src/proxy/mirror.rs:469-476 | two digits a byte, high nibble first |
| CertPins.DigitsOfByte | src/proxy/mirror.rs:473 | the digits are those of 0123456789abcdef at the two nibbles |
| CertPins.ParseCertPin | src/proxy/mirror.rs:439-458 | succeeds exactly on 64 hex digits once separators are dropped, and the result prints as those digits in lower case; the error names the length or the first bad digit |
| CertPins.HexInjective | src/proxy/mirror.rs:469-476 | different bytes print differently |
| CertPins.RoundTrip | src/proxy/mirror.rs:439-476 | the printed form of any 32 bytes parses back to them |
| Reconnects.Mirror.Run | src/proxy/mirror.rs:137-168 | the sleep after k earlier sleeps since the last connection lasts min(250 * 2^k, 5000) ms, the slot holds the connection exactly while it is served, and the loop waits exactly as its turns require |
| Reconnects.Mirror.TakeTurn | src/proxy/mirror.rs:139-167 | one turn: connect, serve if connected, sleep unless shut down; the backoff kept is the one the next sleep owes |
| Reconnects.BackoffGrowsToCeiling | src/proxy/mirror.rs:53-54 | the first sleep is 250 ms, they double up to 4000 ms, and are 5000 ms exactly from the sixth on |

## Left out

- QUIC, TLS, gRPC and HTTP transport, certificate verification and endpoint set-up: foreign libraries.
- RSA, Ed25519 and JWT internals: the ideal predicates under "Assumptions" stand for them.
- The interceptor's header parsing and its check of a presented token: it keeps no state, and takes only the key from a verified token.
- The block-engine client, RPC, TPU sockets, start-up, logging and statistics.
- Mirroring packets as datagrams, control messages, and the lag warnings of broadcast channels: pass-through without state.
- DelayLines.ResponseDelay.Poll: a timer is taken to be ready exactly when its instant is reached; the runtime's millisecond granularity may make it late, which delays releases and changes no order.
- Forwarding.ForwarderService.OnPackets: counters are unbounded where the source uses 64-bit integers, so runs are those below overflow; an arm runs without subscriptions between its steps, and those are in the runs of SubscriptionRuns.
- Forwarding.ForwarderService.HandleHeartbeat: the count is unbounded likewise.
- SubscriptionRuns.RemovalIsExactUnlessResubscribed: attempts of one arm may come in any number and order, which includes the order of the source.
- AuthService.AuthService.GenerateAuthChallenge: runs with no other handler beside it, but with time passing between its steps; overlapping handlers are in AuthRuns, and cancellation of a handler by its client is not modelled.
- AuthRuns.Reachable: the clock reads of one decision, and of one refresh, are a single event. A sweep may compare with an instant between them, but the reads of two handlers are not interleaved with each other.
- FilterSets.FilterSet.Sweep: may run while an insert has read the clock, also where the lock would make it wait; this only adds runs.
- In-place mutation of shared packet batches (copy on write): batches are values, so aliasing is not modelled.
- Ordering weaker than sequential consistency, and poisoned locks.
