# Paykit verification model

Paykit stores payment endpoints, receiver markers and encrypted messages on Pubky homeservers.
This project models the parts of its Rust code where correctness spans several calls, peers or
machines, and proves what every input, every interleaving and every run keeps.

* **Homeserver routing** (`Paths`, `Listing`, `Homeserver`, `Discovery`, `PaymentLists`,
  `EndpointStore`, `AccountRuns`). A homeserver is a map from path to bytes with a shallow ordered
  listing; any request may fail, and a failed write may have landed. The paginated listing, discovery
  and the bulk read are proved over a homeserver that may change between any two requests, and exact on
  one that does not. Every run of publish and remove calls refines two abstract maps, and `AccountRuns`
  closes the loop: after any run on a fresh account, discovery and bulk reads return exactly what is
  still published.
* **State transactions** (`StateTransactions`). Any number of storage instances interleave load,
  callback and compare-and-save on one blob store, and a failed save may have landed; every run is
  serializable in save order, and that order respects real time.
* **Single-flight handles** (`SingleFlight`, `AuthRequests`). A shared slot is emptied before an await
  and refilled after it, under unboundedly many overlapping calls; an auth request takes completions
  with arbitrary key bytes and URL reads at any time.
* **Outbound queue** (`OutboundQueue`, `OutboundRuns`). Superseding, claiming and saving private
  messages under peer leases, by any number of workers with arbitrary clocks; deliveries are recorded
  once and in order, and no worker can get a peer stuck.
* **Pairwise domains** (`PairDomain`), **Noise session** (`NoiseSession`), **capabilities**
  (`Capabilities`), **selection** (`Selection`) and **Private Payment Lists** (`PrivateList`).

`Wrappers`, `Text`, `Utf8` and `ByteOrder` hold shared vocabulary: results, the order of strings,
splitting and joining, sorting by key, strict UTF-8, and the proof that string order is byte order.

Foreign code appears as parameters with its laws written down once: `ReceiverMarker.Lawful` (JSON and
z-base-32 text), `NoiseSession.Lawful` and `NoiseSession.Unforged` (an ideal authenticated cipher, section 5.1
of the Noise Protocol Framework, revision 34), `PairDomain.DhSymmetric` (path derivation), `Listing.Serves`
and `Homeserver.Bounded` (ordered listings, finitely many paths), `Capabilities.Normalizes` (capability
normalization), `StateTransactions.Lands` with `HonestRevision` (the blob store rejects a changed
revision, and equal revisions carry equal blobs).

An empty file means different things to different callers: single and bulk reads treat an empty
payload as absent, an empty marker is invalid data, and discovery counts an empty endpoint file as
an advertisement.

Check everything with `dafny verify dfyconfig.toml`.

## Model

| member | source | states |
|---|---|---|
| Paths.ValidateReceiverPathExact | paykit-lib/src/receiver.rs:57-119 | the chain of length, segment, reserved-app and runtime checks accepts exactly `app/wallet` and `app/server` with a legal app, on every string |
| Paths.NewIdentifierExact | paykit-lib/src/payment_endpoint.rs:48-91 | identifier construction accepts exactly the 1-64 character names over the legal alphabet that are not reserved and not all dots |
| Paths.UnderDetermines | paykit-lib/src/pubky_routing.rs:257-296 | a path under the public or the private root determines root, receiver and rest; the reserved app segment keeps the roots apart |
| Paths.RoutesSeparate | paykit-lib/src/pubky_routing.rs:257-296 | all five path constructors (marker, endpoint, messages, receipts, recovery) are injective and pairwise disjoint |
| Paths.PathsSeparate | paykit-lib/src/pubky_routing.rs:262-282 | the case of endpoint and marker files |
| Paths.SegmentsUnder | paykit-lib/src/pubky_routing.rs:257-296 | splitting any path built under a receiver's folder gives back root, app, runtime and the rest |
| ByteOrder.LessIsByteOrder | paykit-lib/src/pubky_routing.rs:207-207 | the string order of the model is the byte order of the UTF-8 encodings, which Rust sorts by |
| Listing.ScanPages | paykit-lib/src/pubky_routing.rs:504-558 | the loop ends and its result has every property that holds at the start and that each page request keeps |
| Listing.TurnIsSound | paykit-lib/src/pubky_routing.rs:508-555 | one page request keeps the scan invariant, or ends it with a correct answer, whatever changed since the page before |
| Listing.ListResources | paykit-lib/src/pubky_routing.rs:497-558 | over a changing directory the loop ends; a success is strictly increasing, holds every entry present at all page reads and only entries present when their page was read; an error is the failed page's |
| Listing.UnchangingListing | paykit-lib/src/pubky_routing.rs:497-558 | on an unchanging directory such a result is the directory, at exact multiples of the page size too |
| Listing.AfterExact | paykit-lib/src/pubky_routing.rs:525-527 | the cursor contract: exactly the entries strictly after the cursor, in order |
| Homeserver.ListDirectory | paykit-lib/src/pubky_routing.rs:497-558 | a listing of an unchanging homeserver is the ordered set of direct children, or a transport error when unreachable |
| Homeserver.ListEntries | paykit-lib/src/pubky_routing.rs:497-558 | while the homeserver changes: every listed entry was there at some request, and every entry there at all requests is listed; fails exactly at a failing request |
| Homeserver.EntryShape | paykit-lib/src/pubky_routing.rs:229-234 | an entry without trailing slash is a direct file of the folder, one with it a direct sub-folder |
| ReceiverMarker.MarkerRoundTrip | paykit-lib/src/receiver_marker.rs:67-135 | a serialized marker parses back for its own receiver path and is invalid data for any other |
| Discovery.ReceiverIsPubliclyAdvertised | paykit-lib/src/pubky_routing.rs:211-235 | while the homeserver changes: true only with a valid marker at its request or a direct file during the listing, false only without that marker and with no file there throughout; an invalid or empty marker falls through; fails only when one of its requests does |
| Discovery.AppSegmentAccepted | paykit-lib/src/pubky_routing.rs:396-398 | the app pre-check never prunes a valid receiver path |
| Discovery.AdvertisedIsReached | paykit-lib/src/pubky_routing.rs:387-394 | a valid receiver advertised throughout shows up under its two entries at every request of both listing levels |
| Discovery.ScanRuntimes | paykit-lib/src/pubky_routing.rs:179-204 | the inner loop adds exactly the valid receivers of one app folder to `seen`, checks each once, and keeps the advertised ones; it stops only at a receiver whose check failed |
| Discovery.ScanApp | paykit-lib/src/pubky_routing.rs:175-204 | one app folder is listed and gone through; it stops only if the listing or a check failed |
| Discovery.ScanApps | paykit-lib/src/pubky_routing.rs:160-205 | the outer loop enters exactly the accepted app folders; it stops only at one that failed |
| Discovery.FetchPaykitReceiverPaths | paykit-lib/src/pubky_routing.rs:153-209 | on a homeserver that may be a different one at every request: success is strictly sorted, every receiver was advertised when it was checked, and every receiver advertised throughout is returned; failure only when one of its requests failed |
| Discovery.ReceiverPathsUnchanging | paykit-lib/src/pubky_routing.rs:153-209 | on an unchanging homeserver success is exactly the valid advertised receivers, strictly sorted, and failure exactly when one of its requests fails |
| PaymentLists.FetchPaymentListFromDirectory | paykit-lib/src/pubky_routing.rs:335-385 | while the homeserver changes: every payload was read from its file, a file there throughout is in the map or was read as empty, a transport error means an unreachable folder or listed file, invalid data a corrupt file |
| PaymentLists.CollectEntries | paykit-lib/src/pubky_routing.rs:343-384 | the loop inserts entry after entry and stops at the first one that fails |
| PaymentLists.FetchPaymentList | paykit-lib/src/pubky_routing.rs:126-134 | on an unchanging homeserver the bulk read agrees with the single read at every identifier, fails exactly when the folder or a file is out of reach or a file is corrupt (not UTF-8, or non-empty under a bad name), and with the error of that kind |
| PaymentLists.CollectedIsFetched | paykit-lib/src/pubky_routing.rs:343-384 | the filled map is what the reads of the listed files returned, with nothing lost that was there throughout |
| EndpointStore.Session.Put | paykit-lib/src/pubky_routing.rs:31-52 | the whole server state after a write; a failed one may have landed or not |
| EndpointStore.Session.Delete | paykit-lib/src/pubky_routing.rs:55-77 | the whole server state after a delete; an absent file is a success, a failed request may have landed or not |
| EndpointStore.Session.UpsertPaymentEndpoint | paykit-lib/src/pubky_routing.rs:31-52 | one abstract set step |
| EndpointStore.Session.DeletePaymentEndpoint | paykit-lib/src/pubky_routing.rs:55-77 | one abstract remove step |
| EndpointStore.Session.UpsertReceiverMarker | paykit-lib/src/pubky_routing.rs:80-96 | one abstract publish step |
| EndpointStore.Session.DeleteReceiverMarker | paykit-lib/src/pubky_routing.rs:99-119 | one abstract unpublish step |
| EndpointStore.ReadBack | paykit-lib/src/pubky_routing.rs:401-494 | what was written reads back; an empty body reads as absent |
| EndpointStore.ReadIsStored | paykit-lib/src/pubky_routing.rs:401-443 | a read returns a text exactly when it is non-empty and its bytes are what is stored |
| EndpointStore.StepRefines | paykit-lib/src/pubky_routing.rs:31-119 | each call changes only its own key of the abstract maps |
| EndpointStore.RunRefines | paykit-lib/src/pubky_routing.rs:31-119 | every run, with any of its calls failing and any failed call landing or not, refines the maps from (receiver, identifier) to payload and from receiver to marker |
| EndpointStore.RunIsPossible | paykit-lib/src/pubky_routing.rs:31-119 | the maps of a run are among those its caller must reckon with, knowing only which calls succeeded |
| EndpointStore.SuccessDecides | paykit-lib/src/pubky_routing.rs:31-119 | in all of those a successful call fixes its key until the next attempt on it |
| EndpointStore.LastSuccessIsRead | paykit-lib/src/pubky_routing.rs:239-254 | after any run a reader finds what the last attempt on an endpoint or a marker asked for, set or removed, if it succeeded |
| EndpointStore.PrivateTreeUntouched | paykit-lib/src/pubky_routing.rs:284-296 | no run of these calls touches any receiver's private tree |
| EndpointStore.FreshAccountRun | paykit-lib/src/pubky_routing.rs:31-119 | from an empty account the maps are determined by the calls alone |
| EndpointStore.RunFrame | paykit-lib/src/pubky_routing.rs:31-119 | files that no call targets are untouched by any run |
| AccountRuns.RunLayout | paykit-lib/src/pubky_routing.rs:31-119 | after any run the stored files are exactly those of the kept endpoints and markers |
| AccountRuns.AbstractIsKept | paykit-lib/src/pubky_routing.rs:401-443 | over every run the abstract maps are the stored ones without the empty payloads |
| AccountRuns.ListAfterRun | paykit-lib/src/pubky_routing.rs:335-385 | after any run on a fresh account the bulk read succeeds with exactly the receiver's part of the abstract map |
| AccountRuns.ReceiversAfterRun | paykit-lib/src/pubky_routing.rs:153-209 | after any such run discovery succeeds with exactly the receivers that have a marker or a stored endpoint, sorted |
| AccountRuns.AdvertisedExactly | paykit-lib/src/pubky_routing.rs:211-235 | being advertised means having a marker or any endpoint file, an empty one included |
| StateTransactions.BlobStore.SaveStateBlobAtomically | paykit-ffi/src/storage.rs:28-41 | a save that arrives is granted exactly when the stored revision is the expected one; its answer may be lost |
| StateTransactions.TransactionErased | paykit-ffi/src/storage.rs:51-86 | the outcome and the whole new store of one call, skipping the write when nothing changed |
| StateTransactions.UndisturbedTransaction | paykit-ffi/src/storage.rs:51-86 | load and finish of the interleaving machine with nobody in between are that one call |
| StateTransactions.SaveReplacesWhatWasRead | paykit-ffi/src/storage.rs:66-80 | a granted save replaces exactly the state its transaction read, also when a revision came back |
| StateTransactions.StepKeepsInv | paykit-ffi/src/storage.rs:51-86 | every load or finish step keeps the history invariant |
| StateTransactions.HistoryReplays | paykit-ffi/src/storage.rs:51-86 | a linked history is the fold of its writers' callbacks |
| StateTransactions.Serializable | paykit-ffi/src/storage.rs:51-86 | for every interleaving the stored state is the fold in save order of the writers' callbacks, each of which read what it replaced; every returned transaction got its result from the state at its recorded point of that history; a failure leaves no trace unless its save landed, and then it is one of the writers |
| StateTransactions.OnlyAppends | paykit-ffi/src/storage.rs:51-86 | over every run the history only grows and finished transactions stay as they are |
| StateTransactions.RealTimeOrder | paykit-ffi/src/storage.rs:51-86 | a transaction that returned before another loaded is not serialized later, and strictly earlier when it wrote |
| SingleFlight.Slot.Take | paykit-wasm/src/link.rs:317-329 | the slot's value moves out and leaves it empty |
| SingleFlight.Slot.Replace | paykit-wasm/src/link.rs:317-329 | the value moves back in |
| SingleFlight.RunAlone | paykit-wasm/src/link.rs:268-437 | one operation alone: rejected on an empty slot, else the slot holds what its outcome says |
| SingleFlight.StepKeepsInv | paykit-wasm/src/link.rs:268-437 | every call, poll, resolve, snapshot or tuning step keeps the value in one place |
| SingleFlight.SingleFlight | paykit-wasm/src/link.rs:268-437 | for every interleaving the link is the sequential composition of the admitted operations, rejected ones took no part, a replace never overwrites and snapshots saw only states between operations |
| SingleFlight.SpentAtMostOnce | paykit-wasm/src/link.rs:424-436 | at most one operation uses the value up, and it is the last admitted |
| SingleFlight.StaysSpent | paykit-wasm/src/link.rs:198-264 | a used-up handle rejects every later call |
| SingleFlight.LinkSurvives | paykit-wasm/src/link.rs:317-396 | without an admitted close the link is never lost |
| SingleFlight.AtMostOneLink | paykit-wasm/src/link.rs:198-264 | a handshake handle completes or fails at most once over every run |
| SingleFlight.AtMostOneApproval | paykit-wasm/src/session.rs:260-273 | among any number of concurrent completions at most one reaches the flow |
| AuthRequests.TakeForCompletion | paykit-ffi/src/session.rs:474-491 | succeeds exactly on 32-byte keys and a present request, with the parsed keys; malformed keys leave the request where it is, well-formed ones take it |
| AuthRequests.StepKeepsInv | paykit-ffi/src/session.rs:459-501 | calls, key checks, takes, answers and URL reads keep the request in its slot exactly until the first take |
| AuthRequests.OneShotRequest | paykit-ffi/src/session.rs:459-501 | for every interleaving only the first completion at the mutex gets the request, and its keys were well-formed; the request is in its slot and its URL readable exactly while no well-formed completion got that far |
| AuthRequests.MalformedLeaveNoTrace | paykit-ffi/src/session.rs:480-484 | every run reaches the same slot, admissions and URL answers as the run without its malformed completions |
| OutboundQueue.Storage.InsertOutboundPrivateMessage | paykit-sdk/src/storage/in_memory.rs:301-310 | the whole new queue, with a fresh id |
| OutboundQueue.Storage.ClaimPeerLinkOperation | paykit-sdk/src/storage/in_memory.rs:245-271 | a lease is granted exactly when none exists or the old one has expired, always under a new id |
| OutboundQueue.Storage.ReleasePeerLinkOperation | paykit-sdk/src/storage/in_memory.rs:284-299 | only the lease with that id is removed |
| OutboundQueue.Storage.Supersede | paykit-sdk/src/storage/queue.rs:88-129 | in place, exactly the claimable older lists of the peer become superseded |
| OutboundQueue.Storage.ClaimNextOutboundPrivateMessage | paykit-sdk/src/storage/in_memory.rs:356-405 | the whole new queue and the claimed record |
| OutboundQueue.Storage.SaveOutboundPrivateMessage | paykit-sdk/src/storage/in_memory.rs:407-428 | the first record with the id is replaced, an unknown id changes nothing |
| OutboundQueue.OutboundPrivateQueueHeadIsClaimable | paykit-sdk/src/storage/queue.rs:41-86 | computes the forecast over one peer's messages |
| OutboundQueue.ForecastExact | paykit-sdk/src/storage/queue.rs:41-129 | the read-only forecast says yes exactly when superseding and claiming would return a message, for every queue |
| OutboundQueue.NewestListSurvives | paykit-sdk/src/storage/queue.rs:88-129 | a list is superseded only while a newer live list of the same peer exists, and never in flight |
| OutboundRuns.ClaimEffect | paykit-sdk/src/storage/in_memory.rs:356-405 | a claim changes only open messages of its peer and returns the peer's oldest open message |
| OutboundRuns.StepKeepsInv | paykit-sdk/src/runtime/outbound_private.rs:163-244 | every transaction of every worker keeps the queue invariant |
| OutboundRuns.SentOnceInOrder | paykit-sdk/src/runtime/outbound_private.rs:411-525 | over every run a message is recorded as sent at most once, in id order per peer, only after a claim and with everything older final |
| OutboundRuns.ClaimsAdvance | paykit-sdk/src/domain/outbound_private/mod.rs:235-258 | claims of a peer never go back to an older message |
| OutboundRuns.OneWriterPerPeer | paykit-sdk/src/storage/mod.rs:347-361 | at most one worker per peer can write, and what it holds is the stored head in flight |
| OutboundRuns.LostLeaseStaysLost | paykit-sdk/src/storage/in_memory.rs:245-299 | a lease taken over or released never becomes active again |
| OutboundRuns.StaleSaveIsHarmless | paykit-sdk/src/storage/mod.rs:347-361 | a worker whose lease was taken over changes nothing when it saves |
| OutboundRuns.Progress | paykit-sdk/src/storage/in_memory.rs:245-271 | in every reachable run, late enough, anyone can take a peer's lease and claim its next message, or nothing of the peer is open |
| OutboundRuns.Drain | paykit-sdk/src/runtime/outbound_private.rs:163-244 | some continuation leaves every open message of the peer sent or superseded and no other message changed |
| OutboundRuns.AlwaysDrains | paykit-sdk/src/runtime/outbound_private.rs:163-244 | so no run of any workers, crashed ones included, ever gets a peer stuck |
| PairDomain.ReceiverPairPathDomain | paykit-lib/src/pubky_routing.rs:298-333 | in-place sort and buffer appends give the five NUL-separated fields |
| PairDomain.DomainSymmetric | paykit-lib/src/pubky_routing.rs:298-333 | both peers compute the same bytes |
| PairDomain.DomainDetermines | paykit-lib/src/pubky_routing.rs:298-333 | equal bytes mean the same base domain and the same unordered pair of key and receiver path |
| PairDomain.PeersMeet | paykit-lib/src/encrypted_link_recovery.rs:132-162 | each peer's write path is the other's read path, given only Diffie-Hellman symmetry |
| PairDomain.PairPathsMeet | paykit-lib/src/encrypted_link/paths.rs:39-69 | the same for any domain text and any receiver prefix |
| PairDomain.PurposesSeparate | paykit-lib/src/encrypted_link_recovery.rs:132-162 | different purposes never share domain bytes, whatever the pairs |
| PairDomain.PurposesInUse | paykit-lib/src/encrypted_link/paths.rs:10-10 | the message and the recovery purpose are such a pair of domain texts |
| NoiseSession.EncodePacket | paykit-wasm/src/memory.rs:26-31 | fills the fixed-size packet in place for every length, all indexes in range |
| NoiseSession.DecodePacket | paykit-wasm/src/memory.rs:33-44 | copies the framed bytes for packets of any content, all indexes in range |
| NoiseSession.UnpackExact | paykit-wasm/src/memory.rs:26-44 | a packet decodes to a ciphertext exactly when it is that ciphertext framed with some padding that fits: neither padding bytes nor padding length matter |
| NoiseSession.UnpackFramed | paykit-wasm/src/memory.rs:26-44 | decode undoes encode at every length up to the bound |
| NoiseSession.MemoryNoiseSession.WriteHandshakeMessage | paykit-wasm/src/memory.rs:105-116 | the whole new session and the packet, refused in transport mode |
| NoiseSession.MemoryNoiseSession.ReadHandshakeMessage | paykit-wasm/src/memory.rs:120-130 | the whole new session for any input packet |
| NoiseSession.MemoryNoiseSession.TransitionTransport | paykit-wasm/src/memory.rs:136-146 | transport mode and link id appear together, once |
| NoiseSession.MemoryNoiseSession.Encrypt | paykit-wasm/src/memory.rs:158-180 | the whole new session at every exit, including the one that consumes a nonce and returns nothing |
| NoiseSession.MemoryNoiseSession.Decrypt | paykit-wasm/src/memory.rs:183-199 | the whole new session and plaintext for any input packet |
| NoiseSession.StepKeepsInv | paykit-wasm/src/memory.rs:103-199 | every step of either side, on any packet, keeps both directions in order |
| NoiseSession.NoncesNeverRepeat | paykit-wasm/src/memory.rs:158-180 | over every run no side returns two packets under one nonce |
| NoiseSession.DeliveredIsPrefix | paykit-wasm/src/memory.rs:158-199 | whatever the network drops, repeats, reorders or makes up, each side delivers a prefix of what the other sent, every plaintext within 1000 bytes |
| NoiseSession.InOrderDelivery | paykit-wasm/src/memory.rs:183-199 | the peer's packets in order, with any rejected packets in between, give exactly the plaintexts |
| NoiseSession.LinkIdsConverge | paykit-wasm/src/memory.rs:136-155 | a remark on the invariant: under a collision-free hash link ids agree exactly over the same handshake messages |
| Capabilities.ScopeOrder | paykit-sdk/src/identity.rs:348-350 | scope coverage is a partial order |
| Capabilities.CoverageExact | paykit-sdk/src/identity.rs:340-346 | one capability covers another exactly when it allows every request the other allows |
| Capabilities.CheckIsCoverage | paykit-sdk/src/identity.rs:309-338 | the check passes exactly when every required capability is covered |
| Capabilities.NormalizedCheckIsSound | paykit-sdk/src/identity.rs:309-338 | a passing check of the normalized list means every required request is allowed by the session's own list |
| Capabilities.NormalizedAllowsTheSame | paykit-sdk/src/identity.rs:313-313 | under the normalization law both lists allow the same requests |
| Capabilities.CoverageSurvives | paykit-sdk/src/identity.rs:309-338 | what one capability of the session's list covers is covered after normalizing |
| Capabilities.SplitGrantNeedsNormalizing | paykit-sdk/src/identity.rs:313-313 | a grant split into a reading and a writing half passes no check unless it is normalized first |
| Capabilities.ValidateProfileNamespaceExact | paykit-sdk/src/config.rs:176-212 | the namespace checks accept exactly the stated shape |
| Capabilities.RequiredSessionCapabilities | paykit-sdk/src/config.rs:146-158 | the pushed list is the specification used by the coverage and isolation results |
| Capabilities.PathsAgree | paykit-lib/src/pubky_routing.rs:261-296 | the configuration's paths are the routing layer's paths |
| Capabilities.LocalPathsCovered | paykit-sdk/src/config.rs:109-174 | every local path lies within the required capabilities |
| Capabilities.ReceiversIsolated | paykit-sdk/src/config.rs:109-212 | the capabilities of one receiver allow no request on another receiver's paths, for any profile namespaces |
| Capabilities.LocalPathsSeparate | paykit-sdk/src/config.rs:109-174 | no two SDK paths meet, also within one receiver: a path determines its receiver, its kind and its name |
| Capabilities.BrowserCheckSuffices | paykit-wasm/src/session.rs:412-422 | passing the browser check means passing the SDK check, which normalizes first, for every default-namespace configuration |
| Capabilities.PaykitGrantExact | paykit-sdk/src/identity.rs:309-338 | the bare Paykit grant, however normalized, suffices exactly for the default namespace |
| Selection.SelectedCandidates | paykit-ffi/src/payment_adapter.rs:871-902 | succeeds exactly on replies without repeated or unknown ids, and then picks distinct places in the adapter's order |
| Selection.SelectPaymentEndpoints | paykit-ffi/src/payment_adapter.rs:382-421 | succeeds exactly when the ids are distinct and the adapter's reply is acceptable, with ids and candidates aligned |
| Selection.SelectionIsFaithful | paykit-ffi/src/payment_adapter.rs:436-475 | the result holds request candidates, none twice, carrying the adapter's ids in order |
| Selection.PreimageDetermines | paykit-ffi/src/payment_adapter.rs:830-869 | the hashed bytes determine source and candidate for every payload when the identifier has no NUL |
| Selection.IdentifierNulFree | paykit-lib/src/payment_endpoint.rs:72-90 | every valid identifier meets that condition |
| Selection.NulInIdentifierCollides | paykit-ffi/src/payment_adapter.rs:850-869 | with a NUL in the unchecked identifier string two candidates always share their bytes |
| PrivateList.DeserializeEndpoints | paykit-lib/src/private_payment_list.rs:90-124 | the visitor succeeds exactly on distinct keys, with the map of the entries |
| PrivateList.CheckIdentifiers | paykit-lib/src/private_payment_list.rs:146-161 | in any enumeration order: the same map when every key is valid, else invalid data |
| PrivateList.ParsePrivateList | paykit-lib/src/private_payment_list.rs:127-162 | succeeds exactly for version 1, the right kind, distinct and valid keys |
| PrivateList.EntryOrderIrrelevant | paykit-lib/src/private_payment_list.rs:90-162 | reordering the entries changes neither verdict nor list |
| PrivateList.SerializePrivateList | paykit-lib/src/private_payment_list.rs:165-182 | in any enumeration order the wire object is accepted and parses back to the map |
| PrivateList.EnumerationRoundTrip | paykit-lib/src/private_payment_list.rs:127-182 | reading any enumeration of a map gives the map |
| PrivateList.LastWins | paykit-wasm/src/payments.rs:53-62 | the built map holds the value of each key's last pair |
| PrivateList.PrivateListFromPairs | paykit-wasm/src/payments.rs:53-62 | succeeds exactly when every key is valid, with the last-wins map |
| PrivateList.ParsePrivateListToPairs | paykit-wasm/src/payments.rs:72-87 | the pairs are every entry once, keys strictly increasing |
| PrivateList.CanonicalUnique | paykit-wasm/src/payments.rs:72-87 | there is only one such pair sequence for a map |
| PrivateList.BrowserRoundTrip | paykit-wasm/src/payments.rs:53-87 | for every pair sequence: succeeds exactly on valid keys and gives the last-wins map in canonical form |

## Left out

- HTTP, sign-in, relay delivery and the Pubky client: a request succeeds, finds nothing, or fails; retries and message texts are not modelled.
- The homeserver's own paging is assumed: each page holds the next 100 entries strictly after the cursor, or all that are left. A homeserver returning short pages early would end the loop early.
- JSON, postcard, base64, z-base-32 and RFC 3339 text: the model works on decoded values, with a codec as a rendering function and its partial inverse.
- SHA-256 and its truncation to 16 bytes in candidate ids: the model speaks of the hashed bytes.
- Noise and X25519 internals: nonce, counter and transcript behaviour of the Noise library is written as the bodies of `WriteAct` and `ReadAct` and as laws; zeroizing and `close` are not modelled. `vendor/snow/src/cipherstate.rs` shows the read nonce moving only on success; the context type of pubky_noise is not in the repository, so its message size of 1000 bytes comes from `paykit-lib/README.md:311` and the tag size from `vendor/snow/src/constants.rs:3`.
- Capability text parsing and normalization: the model starts from parsed capabilities and states normalization as a law.
- OutboundQueue.OutboundPrivateQueueHeadIsClaimable: the stable sort by id followed by a scan is modelled as the least kept message under id and position.
- OutboundRuns.SentOnceInOrder: speaks about recorded deliveries. A worker whose lease expired may still have put its message on the wire, so a message can reach the wire more than once.
- Reservations, recovery episodes, backup restore and the reset of the outbound queue: other transactions of the SDK runtime.
- Payment requests, receipts, profiles and contacts (their records, wire formats and workflows), the conversions between SDK and FFI records, redaction of secrets in debug output and logging are not modelled.
- EndpointStore.Session.Put: payload size limits and write permissions of a real homeserver are not modelled; a refusal is a failed request.
