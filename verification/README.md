# rustscript-agent: verified model

A Dafny model of the parts of the RustScript agent service that must stay right across
crashes, concurrent requests, hostile input and arbitrary chunking, with proofs of what
they keep.

| files | what they model |
|---|---|
| `YamlEvents`, `YamlBudget`, `YamlBuilder`, `YamlTheorems`, `YamlErrors`, `YamlPreflight` | the one-pass budget that decides, event by event, whether a YAML text stays within the depth, node and byte limits after its aliases are expanded |
| `ProviderCodec`, `ProviderRoundTrip`, `ProviderRecord`, `ProviderFields`, `ProviderAcceptance`, `ProviderRefusal` | canonical provider steps: strict decoding, validation, bounded storage, reconstruction of the envelope for replay; which responses are accepted and what is kept of them |
| `DurableProtocol`, `DurableRecovery`, `DurableReplay` | the durable provider host: one run's event log, crashes, retries, replay |
| `SchemaPreflight`, `SchemaText` | the explicit-stack inspection of a tool's JSON schema and the size-limited writer |
| `Sha256Padding`, `Sha256`, `Sha256Standard`, `Sha256Example` | the registry's own SHA-256 (FIPS 180-4) |
| `ArtifactStore` | the artifact store under concurrent publication and retraction |
| `SecretStore`, `SecretSlots` | publication of a transport response as script handles, and its withdrawal |
| `WorkspaceEpoch`, `EndpointRouting` | concurrent policy reloads; the check that routing does not depend on the order of endpoints |
| `Utf8`, `SanitizedStream`, `EventStream` | the sanitized record stream over chunks of any size |
| `CallbackRequest`, `CallbackRoundTrip`, `CallbackGrammar`, `CallbackRefusal`, `CallbackSession`, `Pkce` | the native OAuth callback parser, the read loop in front of it, and the PKCE material |
| `OpaqueHandles`, `SaturatingCounter` | opaque host handles; the lock-free metrics counter |

Concurrent parts are state machines: `Next` gives one atomic section of the program,
`Run` a whole interleaving, and the main lemmas quantify over every run. Objects that the
program updates in place are classes whose methods are proved against the functions that
the lemmas speak about. The environment comes in as parameters: random bytes, clocks and
cancellation, transport chunks, storage faults, the JSON parser and printer.

## What the main results say

- **YAML budget.** The budget never builds the expanded document, yet it accepts exactly
  the event streams that begin with one well-formed document whose aliases all resolve and
  whose *expanded* tree fits the limits (`YamlPreflight.PreflightAccepts`). After every
  accepted prefix each counter and frame is the measure of what was read
  (`YamlTheorems.AcceptedPrefixIsMeasured`). A document whose aliases resolve is only ever
  refused for a limit that its expansion exceeds, and that limit is the one reported
  (`YamlPreflight.PreflightRefusalIsJustified`).
- **Durable provider protocol.** In every run, with crashes and interference between any
  two steps, the inner provider is only called for a turn whose request is durable, that is
  not completed and that no failure blocks; turns and attempts are numbered without gaps; a
  blocked turn stays blocked; a fresh host first replays the completed steps in order. An
  open request is sent again if and only if the very same request is durable, no tool event
  stands behind it, nothing has failed for good, the run still runs and its retryable
  failures are within the budget (`DurableRecovery.OpenRequestIsResentExactly`); the inner
  provider never gets a request other than the one in the log
  (`DurableRecovery.InnerCallSendsWhatWasRequested`).
- **Provider responses.** Which responses are accepted is decided key by key on the JSON
  value (`ProviderAcceptance.AcceptedExactly`). Both the committed and the replayed envelope
  carry exactly the text, calls, usage counts, model, provider, truncation and reasoning of
  the response (`ProviderFields.EnvelopesKeepResponse`).
- **Replay is not always exact.** The header of `src/durable_provider.rs` promises that
  completed steps are replayed. All that is kept of them is, except the finish reason. The
  envelope as a whole is the committed one if and only if the response named its finish reason as a
  string: otherwise the commit leaves the field out and the replay fills in an empty one
  (`ProviderRecord.ReplayMatchesCommit`, with a witness in
  `ProviderRecord.ReplayDiffersExample`).
- **Sanitized stream.** For every body whatever, cut into chunks anywhere, the results are
  those of its lines: the joined data values of each item in order, nothing for comments,
  other fields and blank lines without data, the first failure, then the end for ever
  (`EventStream.EveryChunkingDelivers`, `EventStream.EveryBodyIsRead`).
- **Publication of a response is all or nothing**, at each of its points of failure. After
  every failure of a transport call with a device session, the only kind that captures a
  pair, the handles are gone and everything received is dead, the pair included
  (`SecretSlots.DeviceTransport`). A direct `SecretSlots.Vm.PublishPair` would refuse a pair
  and leave it alone if and only if the pair is not the bound owner's, or its credential is
  not admitted while the owner is active; the checks earlier in the call rule this out
  (`SecretStore.PromotedIsBound`).
- **Callback.** The parser accepts exactly the requests of a grammar with one host field, no
  announced body and one state and one code (`CallbackGrammar.ParserAcceptsGrammar`). Every
  state and code that the parser admits survive any escaping, but the
  session only reads 8192 bytes: however the request is cut into reads, it delivers them if
  and only if the request is not longer (`CallbackSession.CallbackReachesSession`, with a
  code within its own bound that is refused in `CallbackSession.LongCodeExample`).
- **Routing.** The order of the endpoints matters for an admitted path exactly when two of
  them clash at a prefix that a path can name (`EndpointRouting.OrderMattersExactly`).

## Model

| member | source | states |
|---|---|---|
| `YamlBudget.YamlEventBudget.ObserveEvent` | src/config_file.rs:1351-1414 | one event updates the mutable budget exactly as the specification `Observe` on its old value, error for error |
| `YamlBudget.YamlEventBudget.Start` | src/config_file.rs:1431-1456 | opening a container: depth check, reservation, new frame, anchor marked open |
| `YamlBudget.YamlEventBudget.End` | src/config_file.rs:1458-1484 | closing a container: kind and pairing check, tag level, depth check, anchor completed, parent updated |
| `YamlBudget.YamlEventBudget.Complete` | src/config_file.rs:1486-1539 | a finished node becomes the root or is added to the innermost frame and charged its edge |
| `YamlBudget.YamlEventBudget.ReserveSummary` | src/config_file.rs:1541-1559 | nodes and bytes are reserved together; a refusal changes neither counter |
| `YamlBudget.Preflight` | src/config_file.rs:1675-1697 | the loop returns the result of the events up to the first end of the stream, error for error, and a malformed one when the parser fails before it |
| `YamlBuilder.BuildNode` | src/config_file.rs:1351-1539 | reading the events of a node computes its alias expansion, or stops exactly when an alias does not resolve |
| `YamlTheorems.AcceptedPrefixIsMeasured` | src/config_file.rs:1326-1559 | after every accepted prefix the counters are the sums over the open frames and the root, every frame summary measures the children completed so far, every anchor the tree it names, and the limits hold |
| `YamlTheorems.AffordableIsAccepted` | src/config_file.rs:1351-1571 | what is within the limits is never refused, neither for depth, nodes or bytes nor for an intermediate overflow |
| `YamlTheorems.BudgetDecidesDocument` | src/config_file.rs:1351-1571 | on the events of any document: accepted iff all aliases resolve and the expanded tree is within all three limits |
| `YamlTheorems.AcceptedLanguage` | src/config_file.rs:1351-1429 | any accepted event sequence is one document, with balanced containers, paired mappings, one root and an expansion that fits; and conversely |
| `YamlErrors.StepErrors` | src/config_file.rs:1351-1666 | an event that may continue the document is refused only for a limit that the document read so far, with it, exceeds, and that limit and its value are reported |
| `YamlErrors.DocumentRefusalIsJustified` | src/config_file.rs:1351-1666 | on every beginning of a document whose aliases resolve: too many nodes, too many bytes and too deep are reported with the configured limit and only when the expanded tree exceeds it; it is never called malformed or a second document |
| `YamlErrors.MultipleDocumentsExactly` | src/config_file.rs:1358-1370 | on every event list, a second document is reported iff the first refused event is a document start behind a finished document |
| `YamlPreflight.PreflightAccepts` | src/config_file.rs:1671-1697 | the preflight accepts iff the parser's events begin with such a document and the end of the stream |
| `YamlPreflight.PreflightRefusalIsJustified` | src/config_file.rs:1675-1697 | when the parser's events begin with a document whose aliases resolve, the preflight's error is a limit that the expansion exceeds |
| `ProviderCodec.DecodeProviderBlocksStrict` | src/durable_provider.rs:715-728 | the loop decodes all items in order and reports the first failure |
| `ProviderCodec.DecodedIsCanonical` | src/durable_provider.rs:715-825 | every decoded block is a text block with its text, or a tool call with id, name and argument text, not truncated and with no other field; each is the decoding of its item |
| `ProviderCodec.ValidateProviderBlocks` | src/durable_provider.rs:615-664 | reports the first violated bound, and none iff every block is within all bounds |
| `ProviderCodec.CanonicalProviderStep` | src/durable_provider.rs:542-613 | blocks come from the content, else from the text; listed calls are added only when no block is a call |
| `ProviderCodec.CollectTextAndCalls` | src/durable_provider.rs:834-877 | the one loop over decoded and validated blocks gives the concatenated text and all calls, in order; its error branches cannot be reached |
| `ProviderCodec.ReconstructProviderEnvelope` | src/durable_provider.rs:827-913 | the rebuilt envelope is the specified one, or the decoding or validation error |
| `ProviderRoundTrip.NothingIsTruncated` | src/domain.rs:470-525 | a block that passes validation is stored without any truncation |
| `ProviderRoundTrip.BlockRoundTrip` | src/durable_provider.rs:730-825 | a storable block, bounded and serialized, decodes to itself in normal form and is still valid |
| `ProviderRoundTrip.StoredStepRoundTrip` | src/durable_provider.rs:827-913 | a stored step decodes to its blocks and rebuilds the envelope of their text and calls |
| `ProviderRoundTrip.DecodedMeaning` | src/durable_provider.rs:715-825 | text and calls of the decoded blocks are those read directly off the JSON items |
| `ProviderRoundTrip.CanonicalMeaning` | src/durable_provider.rs:542-613 | text and calls of the canonical blocks are those of the response, wherever the response carries them |
| `ProviderRoundTrip.AcceptedResponseRoundTrip` | src/durable_provider.rs:487-540 | every accepted response, canonicalized, stored and rebuilt, gives back its own text and calls |
| `ProviderRecord.LenientRoundTrip` | src/domain.rs:417-457 | the lenient decoder of the message store reads a stored block back unchanged |
| `ProviderRecord.CommitSucceeds` | src/service.rs:2299-2433 | a validated step is committed, its stored content survives a reload, and the commit returns the envelope of its text and calls |
| `ProviderRecord.ReplayMatchesCommit` | src/service.rs:2734-2773 | the replay of a committed response has the same text and calls; the envelopes are equal iff the response named a string finish reason |
| `ProviderRecord.ReplayDiffersExample` | src/service.rs:2734-2773 | a response without a finish reason whose replayed envelope differs from the committed one |
| `ProviderFields.EnvelopesKeepResponse` | src/durable_provider.rs:695-913 | for every accepted response: the committed and the replayed envelope have its text, each call with id, name, argument text and parsed arguments, its three usage counts, with 0 for a missing one, its model and provider or else the request's, its truncation and its reasoning, under exactly these keys; the finish reason is the response's, or missing when committed and empty when replayed |
| `ProviderAcceptance.ItemDecided` | src/durable_provider.rs:615-825 | decoding and validation accept exactly the text items and the tool calls with id, name, untruncated and bounded arguments that parse to an object |
| `ProviderAcceptance.AcceptedExactly` | src/durable_provider.rs:487-664 | a response is accepted iff its finish reason, usage, call list and content have the right types and every item, the plain text and every listed call that is used is acceptable |
| `ProviderAcceptance.Utf8LengthIs` | src/durable_provider.rs:641-645 | the bound on argument text counts the bytes of its UTF-8 encoding |
| `ProviderRefusal.RefusalIsJustified` | src/durable_provider.rs:487-825 | a response that is not accepted is refused for a reason that holds of its shape, of an item, of its text or of a listed call |
| `DurableProtocol.DurableProviderHost.Call` | src/durable_provider.rs:313-451 | a call without interference does exactly the machine's host steps: same log, same turn, same reply |
| `DurableProtocol.DurableProviderHost.RecoverPending` | src/durable_provider.rs:350-378 | a pending request is replayed, sent again, marked interrupted or refused as the recovery decision says |
| `DurableProtocol.DurableProviderHost.Settle` | src/durable_provider.rs:401-451 | a failure is recorded, a success committed once, and the turn advances only on a durable step |
| `DurableProtocol.AgentService.Persist` | src/service.rs:2775-2827 | an event id that is present changes nothing; otherwise status and storage decide whether exactly one entry is appended |
| `DurableProtocol.DriveIsRun` | src/durable_provider.rs:313-451 | the host's steps of one call are a run of the machine that ends idle |
| `DurableProtocol.NextKeeps` | src/durable_provider.rs:313-451 | every step, of the host, of the rest of the program or a crash, keeps the numbering of the log and the host's place in it |
| `DurableProtocol.InnerCallIsGuarded` | src/durable_provider.rs:313-451 | in every reachable state that calls the inner provider the request is durable, the turn is not completed and nothing forbids sending it |
| `DurableRecovery.RecoveryDecides` | src/service.rs:2498-2581 | in every state whose turn was not requested twice, what recovery does, as a condition on the entries of the log: replay, interrupt, refuse a run that no longer runs, or send again |
| `DurableRecovery.OpenRequestIsResentExactly` | src/service.rs:2498-2581 | in every reachable state, an open request is sent again iff it has not failed for good, the run runs, the one durable request has the same fingerprint and is marked safe, no tool event stands behind it and its retryable failures are within the budget; which of the other states refuse and which interrupt |
| `DurableRecovery.InnerCallSendsWhatWasRequested` | src/durable_provider.rs:349-400 | in every run the inner provider gets only a request that is durable for its turn, as the only one, with the fingerprint of the call under way |
| `DurableProtocol.LogIsWellNumbered` | src/service.rs:2442-2733 | in every run: one request and one completion per turn, completed turns are 1..k, failures of a turn are attempts 1, 2, 3, ... and at most the retry budget plus one |
| `DurableProtocol.NextExtends` | src/service.rs:2775-2827 | the log only grows and a completed turn keeps its stored step |
| `DurableProtocol.StuckForever` | src/service.rs:2498-2581 | once the open turn is interrupted or failed for good, no continuation calls the inner provider or completes another turn |
| `DurableProtocol.FailureIsRecorded` | src/service.rs:2711-2733 | in every reachable state in which a running run's failure is recorded and the storage works, exactly that failure is appended; it is never taken for one that is there already |
| `DurableProtocol.StepIsInserted` | src/service.rs:2299-2433 | likewise a success is always inserted as the next completed turn |
| `DurableProtocol.DefensiveRepliesNeverHappen` | src/durable_provider.rs:313-451 | no run answers with a step that was committed already or with a replay that finds nothing |
| `DurableProtocol.FindCompletedIsStep` | src/service.rs:2734-2773 | looking up a completed turn finds the step that was stored for it |
| `DurableProtocol.FreshHostReplays` | src/durable_provider.rs:313-348 | a fresh host, under any interleaving without a further crash, first answers the k completed steps in order with no inner call, then is at turn k + 1 |
| `DurableReplay.ReplayCarries` | src/service.rs:2734-2773 | from whichever accepted response a step was stored, its replay succeeds and carries everything that is kept of that response |
| `DurableReplay.AcceptedIsSuccess` | src/durable_provider.rs:401-435 | a response counts as a success iff it says so and passes canonicalization and validation; the commit behind it cannot fail, and stores that response |
| `DurableReplay.EventsAreActions` | src/durable_provider.rs:401-435 | every run in which the inner provider answers with envelopes is a run of the machine |
| `DurableReplay.TracedNext` | src/durable_provider.rs:401-451 | every event, the response of the inner provider or a step of the machine, keeps that each stored step is what the commit of a response received for that turn stores |
| `DurableReplay.FreshHostReplaysResponses` | src/durable_provider.rs:313-451 | after any run, a fresh host answers its first k calls by replaying, turn by turn, a response that was received in that run and committed for that turn: text, calls, usage, model, provider, truncation and reasoning |
| `SchemaPreflight.SizeLimitWriter.Write` | src/registry.rs:659-679 | a write is taken iff it fits; the first that does not fit saturates the size and sets the flag |
| `SchemaPreflight.WriteAll` | src/registry.rs:538-552 | however the text is cut into writes, it is taken iff its whole length fits |
| `SchemaPreflight.InspectValue` | src/registry.rs:467-535 | the checks on one visited value, and which of them each error reports |
| `SchemaPreflight.LongStringMakesLongText` | src/registry.rs:603-606 | the early length rejection only rejects schemas whose text is too long, and reports no more than its length |
| `SchemaPreflight.WalkAdvances` | src/registry.rs:464-536 | replacing the top of the stack by its children keeps the node count and the meaning of what is pending, and makes progress |
| `SchemaPreflight.InspectSchemaLimits` | src/registry.rs:459-553 | accepts iff the root is a boolean or object and node count, depth, dialects and serialized length are all within bounds; every rejection is justified by its own measure, and the number that it reports lies between the bound and that measure |
| `SchemaPreflight.SupportedExactly` | src/registry.rs:433-457 | the five dialect names are supported, each with and without a closing number sign, and no other text is |
| `SchemaText.TextLength` | src/registry.rs:538-552 | the measured length is that of the compact JSON text, written out with its quotes, escapes, commas and colons |
| `Sha256.BuildSchedule` | src/registry.rs:116-137 | the schedule array holds the words of section 6.2.2 of FIPS 180-4, although the terms are added in another order |
| `Sha256.CompressBlock` | src/registry.rs:48-170 | the in-place compression is the 64 rounds and the final additions of the standard |
| `Sha256.HashState` | src/registry.rs:11-39 | the state after the in-place loop over whole blocks and the tail buffer is the fold of the compression over the padded message |
| `Sha256.TailBlocks` | src/registry.rs:30-36 | the zeroed buffer with remainder, 0x80 and length is the end of the padded message, in one or two blocks |
| `Sha256.Sha256Hex` | src/registry.rs:11-46 | the digest is the hexadecimal text of that fold, 64 digits |
| `Sha256Standard.HexSpells` | src/registry.rs:41-46 | the eight digits printed for a word spell its value |
| `Sha256Standard.HexOfWords` | src/registry.rs:41-46 | the digest has the digits of all eight words, in order |
| `Sha256Standard.ChoiceSelects` | src/registry.rs:139-170 | the choice function takes the second word where the first has ones and the third elsewhere |
| `Sha256Standard.MajorityAgrees` | src/registry.rs:139-170 | the majority function takes what two words agree on and the third word where they differ |
| `Sha256Example.AbcDigest` | src/registry.rs:11-170 | the digest of the three bytes "abc" is the published one, so every constant, rotation and order of the rounds is that of the standard |
| `Sha256Padding.PaddingFollowsStandard` | src/registry.rs:24-36 | the padding is that of section 5.1.1 of FIPS 180-4: least number of zero bits, and the length field spells the length in bits |
| `ArtifactStore.CallKeyInjective` | src/capabilities/artifacts.rs:356-358 | different calls of any generation have different keys |
| `ArtifactStore.StoreStaysWithinQuotas` | src/capabilities/artifacts.rs:109-221 | under every interleaving the byte counter is the sum of the stored lengths, all quotas hold, and no call has two live results |
| `ArtifactStore.SecondPublicationRefused` | src/capabilities/artifacts.rs:109-159 | while a result lives, a second publication of its call is refused and changes nothing |
| `ArtifactStore.RetractionTakesEffectOnce` | src/capabilities/artifacts.rs:317-341 | the removing section always finds the object and gives back exactly its length; a second retraction changes nothing |
| `ArtifactStore.RemovedStaysOut` | src/capabilities/artifacts.rs:172-221 | a consequence of the assumption that random identifiers are new: no run puts a removed identifier back |
| `ArtifactStore.ArtifactCapability.StoreBytes` | src/capabilities/artifacts.rs:172-221 | an object is stored iff all three quotas admit it; a refusal leaves the store as it was |
| `ArtifactStore.ArtifactCapability.PutResult` | src/capabilities/artifacts.rs:109-159 | a result is published iff its call has none, the quotas admit it and it is registered; a failure leaves no trace |
| `ArtifactStore.ResultArtifactGuard.Retract` | src/capabilities/artifacts.rs:317-341 | the first retraction removes the object, its bytes and its key; later ones change nothing |
| `SecretSlots.Vm.Issue` | src/auth/host.rs:965-991 | a resource gets a fresh handle iff every stage succeeds; a failure leaves the arena as it was, and is a full arena only if it is full |
| `SecretSlots.Vm.IssueOwnerSlot` | src/auth/host.rs:677-712 | a slot gets one new handle, or it is revoked and nothing else changes; it gets one iff the credential is admitted, the provenance holds, every stage works, the arena has room and the owner is active at both checks; an error names one of these that does not hold |
| `SecretSlots.Vm.IssueDevice` | src/auth/host/device.rs:125-164 | a device session is issued as one new handle or not at all; it is issued iff the credential is admitted and has a generation, the owner has an OAuth service, the session is live, every stage works, the arena has room and the owner is active at both checks; an error names one of these that does not hold |
| `SecretSlots.Vm.RevokeResponse` | src/auth/host.rs:1645-1655 | exactly the slots and the device of the response are revoked |
| `SecretSlots.Vm.RollbackFlow` | src/auth/host/flow.rs:1007-1036 | the flow is revoked and those of its resources that are in the arena are closed |
| `SecretSlots.Vm.PublishPair` | src/auth/host/flow.rs:217-356 | code and verifier get two new handles, or the arena is as before; both the condition of success and that of a refusal are exact; after a failure the flow is revoked, except for a refusal; every error names something that is wrong |
| `SecretSlots.Vm.CloseIfTerminal` | src/auth/host.rs:1714-1734 | a finished credential loses exactly its own resources, any other keeps them; it fails iff a finished credential's alias is gone |
| `SecretStore.AddsIs` | src/auth/host.rs:2027-2050 | what a call adds leaves the older resources as they were, and taking it away gives back the old arena |
| `SecretStore.WithdrawnIs` | src/auth/host.rs:2114-2134 | the undo of a failed call gives the old arena without the used device session, and kills exactly the secrets of the response, the pair and that session |
| `SecretSlots.Vm.FinalizeResponse` | src/auth/host.rs:1657-1675 | a response is let through iff it arrived and the credential closed; otherwise exactly what arrived is revoked; a failed send is reported before a failed close |
| `SecretSlots.Vm.PublishResponse` | src/auth/host.rs:1989-2135 | all or nothing, at every point of failure: on success the arena grows by exactly the published handles, the captured pair included; on a failure it is the old arena without the used device session, and exactly the secrets of the response, the pair and the session are dead in addition, the pair not if it was refused; success is characterized by the faults, the room, the owner's activity and the bindings, and every error names one of them that failed |
| `SecretSlots.FinishTransport` | src/auth/host.rs:1979-2135 | the same for the whole end of a transport call, with the resources of a finished credential closed first, for failed sends and credentials that cannot be closed as well; after every failure the pair is dead; the condition of success is exact, and every error is justified |
| `SecretSlots.DeviceTransport` | src/auth/host.rs:1905-2135 | a whole call with a device session, from two arbitrary handles on: which calls reach the send, when a call that does not takes the session away, and that after a failure behind the send the store is the old one without the session and with everything received dead; every error is justified |
| `SecretSlots.PolicyOwner` | src/auth/host.rs:2170-2174 | a policy handle gives the bound owner iff it is that owner's, the owner is active and admits the credential; an error names one of these that does not hold |
| `SecretSlots.Reclaim` | src/auth/host/device.rs:235-316 | the session is closed iff the owner is inactive and the session is the one that the call was entitled to |
| `SecretStore.ResolvedExactly` | src/auth/host/device.rs:166-231 | a device handle resolves iff it is a live session of the bound owner whose grant and binding name this credential, policy, run and generation; otherwise the error names what does not match |
| `SecretStore.PromotedIsBound` | src/auth/host/device.rs:166-231 | the checks on the device handle imply all that the publication of a pair promoted from it asks of the binding |
| `WorkspaceEpoch.PublicationIsMonotone` | src/auth/host.rs:330-347 | whichever way reloads overlap, the published generation never goes back, the epoch equals it whenever the lock is free, and every owner that passes the check is of that generation |
| `WorkspaceEpoch.SupersededStaysOut` | src/auth/host.rs:177-183 | an owner that was superseded or deactivated never passes the workspace check again |
| `WorkspaceEpoch.BoundOwnerIsCurrent` | src/auth/host.rs:376-404 | whatever happens between the clone of the published snapshot and the owner built from it, the owner has the cloned generation, and it passes the check iff no reload has stored its epoch in between; when no reload holds the lock, iff none has published |
| `WorkspaceEpoch.ReloadPublishesAtLeast` | src/auth/host.rs:330-347 | when a reload returns, a generation at least as new as its own is published |
| `WorkspaceEpoch.AuthHost.Reload` | src/auth/host.rs:330-347 | a reload on its own publishes the newer generation, returns what is published, and changes nothing when its snapshot fails to load |
| `WorkspaceEpoch.ReloadAlone` | src/auth/host.rs:330-347 | the reload of the host object is an uninterrupted run of one thread of the machine, whether the snapshot fails to load, comes too late or is published |
| `EndpointRouting.CheckEndpoints` | src/auth/host.rs:654-665 | the pairwise prefix check passes iff no request path whatever matches endpoints of two authorities |
| `EndpointRouting.PairwiseDecides` | src/auth/host.rs:654-665 | comparing prefixes in pairs decides the question for all paths |
| `EndpointRouting.RoutingIgnoresOrder` | src/auth/oauth.rs:2735-2755 | after the check no reordering of the endpoints changes the authority that any path is sent to |
| `EndpointRouting.OrderMattersExactly` | src/auth/oauth.rs:2735-2755 | some reordering sends some admitted path to another authority iff two endpoints of different authorities have nested prefixes of which the longer can be named by a path |
| `EndpointRouting.AdmittedExactly` | src/auth/oauth.rs:2735-2755 | a path is admitted to an endpoint iff it begins with a slash, has no two dots and no scheme separator at any index, and this is the first endpoint whose prefix it is or lies below |
| `SanitizedStream.ScanSplit` | src/transport/sse.rs:41-121 | framing a body in two parts stops at the same place with the same framer as framing it whole |
| `SanitizedStream.SanitizedAccessSseStream.ReadEventStreamRecord` | src/auth/authenticated_stream.rs:252-292 | the result and what can still be observed are those of the byte stream without its chunks |
| `SanitizedStream.SanitizedAccessSseStream.ReadBufferedJsonRecord` | src/auth/authenticated_stream.rs:295-341 | the one record of the bounded body, or its error, however the body was cut |
| `SanitizedStream.SanitizedAccessSseStream.ReadRecord` | src/auth/authenticated_stream.rs:230-250 | one read in each mode; after an end or an error the transport is not asked again |
| `SanitizedStream.SanitizedAccessSseStream.FillChunk` | src/auth/authenticated_stream.rs:343-357 | one transport read moves a chunk into the buffer without losing a byte |
| `SanitizedStream.SanitizedAccessSseStream.Cancel` | src/auth/authenticated_stream.rs:389-397 | an open stream becomes cancelled; a finished one stays what it is |
| `SanitizedStream.Drain` | src/auth/authenticated_stream.rs:230-341 | successive reads of any chunking give results that depend only on the concatenated body |
| `SanitizedStream.EndRepeats` | src/auth/authenticated_stream.rs:230-250 | after an end or an error every later read repeats it |
| `EventStream.LineProcessed` | src/transport/sse.rs:87-116 | a line adds its value iff it is a data line, with or without a space behind the colon; a comment or another field changes nothing; a blank line completes the item iff there is data; limits and encoding errors |
| `EventStream.EveryChunkingDelivers` | src/auth/authenticated_stream.rs:230-292 | for every body, with or without a byte order mark and with lines ended by LF, CR or CRLF, in any chunks: the records of its items in order up to the first failure, then the end; an unclosed item is never delivered |
| `EventStream.EveryBodyIsRead` | src/transport/sse.rs:41-85 | every byte string is such a body |
| `EventStream.BlockDelivers` | src/transport/sse.rs:87-116 | an item of any lines is one record of its data values joined by line feeds, or nothing when it has none |
| `EventStream.DataIsDecoded` | src/auth/authenticated_stream.rs:359-370 | a marker gives its first index, any other text the sanitized record or the sanitizer's error |
| `Utf8.ValidExactly` | src/transport/sse.rs:87-90 | the text check accepts exactly the encodings of sequences of Unicode scalar values |
| `CallbackRequest.DecodeRawComponent` | src/auth/native_callback.rs:396-435 | the decoding loop is the recursive percent decoding followed by the UTF-8 check |
| `CallbackRequest.ParseCallback` | src/auth/native_callback.rs:273-390 | the parser with its loops returns the specified result, error for error |
| `CallbackRequest.TakePair` | src/auth/native_callback.rs:353-383 | one pair: both sides decoded, state and code taken once and within their bounds, other names ignored |
| `CallbackRequest.TakenParameters` | src/auth/native_callback.rs:351-385 | when the query loop succeeds, state and code are the decoded values of all pairs with those names |
| `CallbackRequest.AcceptedParametersAreUnique` | src/auth/native_callback.rs:277-390 | an accepted request has exactly one state and one code among its decoded pairs, and these are returned |
| `CallbackGrammar.DecodesExactly` | src/auth/native_callback.rs:396-435 | a component decodes to a value iff it spells it byte by byte, plain, as a plus sign for a space or as an escape with digits of either case, and the value is UTF-8 |
| `CallbackGrammar.ParserAcceptsGrammar` | src/auth/native_callback.rs:273-435 | the parser returns a state and a code iff the request is the exact request line, well-formed header fields and an empty line, with one host field that says the expected host, no transfer encoding, at most one content length, which is zero, and a query of well-formed parameters with this state and this code once each and within their bounds |
| `CallbackRefusal.RefusalIsJustified` | src/auth/native_callback.rs:273-435 | each of the parser's errors holds of the request that it is returned for |
| `CallbackRoundTrip.DecodeEncode` | src/auth/native_callback.rs:396-426 | percent decoding undoes encoding, whichever unreserved bytes were escaped |
| `CallbackRoundTrip.CallbackArrives` | src/auth/native_callback.rs:277-390 | every state and code within bounds, rendered in a request to the session's own host, is parsed back exactly by the parser |
| `CallbackSession.NativePreparedCallbackSession.Receive` | src/auth/native_callback.rs:186-208 | a read extends the request, which is decided when its head is complete or the limit is reached; the browser gets a receipt iff it is accepted |
| `CallbackSession.NativePreparedCallbackSession.WaitOne` | src/auth/native_callback.rs:104-218 | the read loop ends with the specified outcome and never reads past the limit |
| `CallbackSession.HeadIsParsed` | src/auth/native_callback.rs:171-208 | a head that ends within the limit is parsed, whatever the sizes of the reads; bytes behind it that came with the last read are refused |
| `CallbackSession.NoHeadIsRefused` | src/auth/native_callback.rs:171-208 | without a complete head within the limit the request is incomplete or too long, by its length alone |
| `CallbackSession.WholeRequestDecides` | src/auth/native_callback.rs:171-208 | for every way of cutting a request without a body into reads the outcome is that of the parser iff it has at most 8192 bytes, and otherwise that it exceeds the limit |
| `CallbackSession.CallbackReachesSession` | src/auth/native_callback.rs:171-390 | a rendered state and code reach the flow, through any reads, iff the rendered request has at most 8192 bytes |
| `CallbackSession.LongCodeExample` | src/auth/native_callback.rs:20-24 | a code within its bound that the parser takes and no session does, because it is fully escaped |
| `Pkce.Base64UrlNoPad` | src/auth/pkce.rs:138-167 | the loop over triples and the tail is the recursive encoding |
| `Pkce.EncodeShape` | src/auth/pkce.rs:138-167 | length without padding and alphabet of the encoded text |
| `Pkce.DecodeEncode` | src/auth/pkce.rs:138-167 | decoding undoes encoding for every byte string |
| `Pkce.EncodeInjective` | src/auth/pkce.rs:138-167 | different bytes have different encodings |
| `Pkce.ChallengeExactly` | src/auth/pkce.rs:111-136 | a challenge is given iff the verifier is one of section 4.1 of RFC 7636, 43 to 128 unreserved characters, and it is the encoded digest |
| `Pkce.RandomBase64Url` | src/auth/pkce.rs:120-126 | the encoded random bytes, or the failure of the random source |
| `Pkce.Generate` | src/auth/pkce.rs:100-118 | generation fails iff the random source does and never by its own verifier check; verifier and state carry all the random bytes; the challenge is the encoded digest of the verifier |
| `OpaqueHandles.IdentifiersAreUnique` | src/host_opaque.rs:38-135 | in every reachable state of all registries no identifier was given twice, all are in the upper half of 32 bits, no registry has more than 64, and no two share one |
| `OpaqueHandles.RevokedNeverResolves` | src/host_opaque.rs:79-155 | after a revoke, clear or drop a handle never resolves again, in any continuation |
| `OpaqueHandles.FreshHandleResolves` | src/host_opaque.rs:83-143 | a mint succeeds iff the registry has room and the pool is not used up; the new handle resolves to its own payload under the next generation and every other handle still resolves |
| `OpaqueHandles.NewRegistryIsEmpty` | src/host_opaque.rs:64-72 | a new registry resolves no handle of an earlier one, and its generations begin with 1 |
| `OpaqueHandles.DeadStaysDead` | src/host_opaque.rs:38-46 | an identifier that the pool has passed and no registry holds stays out |
| `OpaqueHandles.IdPool.AllocatePrototypeId` | src/host_opaque.rs:38-46 | the pool gives its next identifier and counts down, until the floor |
| `OpaqueHandles.OpaqueRegistry.MintHandle` | src/host_opaque.rs:83-135 | minting inserts one entry under a new identifier and generation, or fails without inserting, with the error of the exhausted bound |
| `OpaqueHandles.OpaqueRegistry.RevokeHandle` | src/host_opaque.rs:145-147 | a revoke is the machine's step on this registry: the identifier is gone under every generation and class |
| `OpaqueHandles.OpaqueRegistry.ClearAll` | src/host_opaque.rs:79-81 | a clear is the machine's step on this registry: no identifier resolves |
| `SaturatingCounter.CounterIsLossless` | src/metrics.rs:782-797 | under every interleaving, with spurious failures of the exchange, the counter is the start value plus all completed additions, capped at the largest 64-bit number, and each call adds what it was called with |
| `SaturatingCounter.SaturatingAddCounter` | src/metrics.rs:782-797 | one addition on its own ends and adds its amount, saturating |

## Left out

- YamlBudget.YamlEventBudget.ObserveEvent: does not say what the fields hold after an error, because the preflight drops the budget then.
- YamlBudget.Preflight: the YAML parser, the UTF-8 check and the panic guard in front of the loop are not modelled; a token list without a stream end stands for a parser error.
- YamlEvents: the `size_of` values are parameters of the layout; their sums for an empty container are assumed to fit `usize`, as they are compile-time constants.
- ProviderCodec: the JSON parser and printer are parameters, of which only that they are functions is used; numbers are not interpreted.
- ProviderRecord.CommitSucceeds: message and event rows are reduced to content, metadata and finish reason; pruning and the truncation of oversized events and 128-byte identifiers are not modelled.
- DurableProtocol: one host per run; the test for secret keys in a stored request is left out, because the request entries of the program have none; the scoped step keys, approvals, metrics and the refresh of the provider context inside a call are left out, and the classification of a provider error as retryable is an input.
- DurableProtocol.AgentService.Persist: a failed storage write is taken to have written nothing.
- DurableProtocol.FindCompletedIsStep: a stored row that was damaged outside the program, for which the lookup reports corruption, is not modelled.
- SchemaPreflight.InspectSchemaLimits: does not state the pointer path that an error carries; compilation of the schema by the validator library is not part of this model.
- Sha256.Sha256Hex: no cryptographic property of the digest is stated, and the constants are not derived from the roots of primes.
- ArtifactStore: authorization, metadata binding and reading are left out; random identifiers are taken to be new; a retraction holds the objects lock while it removes the object and frees the key, so between the two only steps that do not need that lock, such as a claim of the key, can happen; the model allows those and all others there.
- SecretSlots.Vm.PublishResponse: the validity checks of the transient index, of the request scope and of the liveness of a pair or session appear as failures that may happen at their places; an owner is active for a number of checks and then inactive for good.
- SecretSlots.DeviceTransport: sending and the admission of the request, with the owner checks inside it, are inputs; the shape of the script's arguments is taken to be right.
- SecretSlots.FinishTransport: credentials other than a device session enter resolved; such calls carry no pair. The error of a failed send is one value, whichever code the send gave.
- WorkspaceEpoch: loading a snapshot is an input that may fail; the wrap-around of the generation counter after 2^64 reloads is modelled.
- SanitizedStream.SanitizedAccessSseStream.ReadRecord: the deadline and cancellation check of the context is taken to pass; the choice of the mode from the response head is an input, and so is the sanitizer.
- CallbackSession: accepting the connection, writing the answer, pauses, deadlines and revocation are left out.
- Pkce.Generate: the random bytes and the digest function are inputs.
- Configuration merging, command line, workspace tools, HTTP gateway, storage engine, approvals and scheduling are not part of this model.
