# OpenAgent runtime: a verified model

This project models the parts of the OpenAgent runtime whose promises span many operations, and proves them
over every input or every run. Each imperative source object is a class whose methods carry out the
statements of one transaction, or of one stretch of a coroutine between two suspension points, and are
verified against a specification function. The same functions are the steps of a state machine; the main
results are invariants and for-all statements about all of its runs.

## Components

- **Privacy ledger** (`ContentPrivacy`, `PrivacyLedger`, `PrivacyProtocol`, `PrivacyStore`, `PrivacyReach`,
  `PrivacyLeases`): revisions with inherited origins, redact and export requests with frozen target sets, what they
  reach, the fence, leased workers and sink receipts.
- **Staged exports** (`PrivacyExports`, `PrivacyDownloads`, `PrivacyDelivery`, `ExportSpool`): encrypted copies below
  their sources in the ledger, what redaction does to them, what is delivered, and downloads in flight.
- **Fragments** (`Fragments`, `FragmentAcceptance`, `FragmentLocality`, over `JsonText` and `Utf8`): partition of a
  provider result into classified subtrees, also inside JSON that is encoded in strings, and erasure of single
  fragments.
- **Session tokens** (`SessionToken`): key-sorted JSON in unpadded URL-safe base64 (section 5 of RFC 4648,
  section 7 of RFC 8259).
- **At-most-once mutations** (`Idempotency`, `IdempotencyAnswers`), the **mutating lease** (`MutatingLease`,
  `LeaseDeadlines`), the **consent barrier** (`ConsentBarrier`, `BarrierEffects`) and the **release of principals**
  (`PrincipalRelease`, `ReleaseEffects`) of the capability host.
- **Run service** (`RuntimeTables`, `RuntimeStore`, `RuntimeEffects`, `RunLifecycle`, `RunCancellation`,
  `SessionLineage`, `SearchOutbox`, `SessionPages`): sessions, runs, messages, tool invocations, the search outbox and
  page-wise listing.
- **Hot swap** (`HotSwap`, `SwapProgress`) and **child scheduling** (`ChildScheduling`) of the runtime.
- **MCP app requests** (`McpApps`, `McpAppEffects`): the request ledger and its byte-bounded result cache.
- **Module resolution** (`ModuleResolution`) and the **fence-preserving splitter** (`FenceSplitter`).

## Where the code falls short of its promise

For each of these the code is modelled as it is, a concrete run or input shows the failure, and the exact condition
under which the promise holds is proved.

- Two dispatches of one mutation within its result lifetime are possible when a key is used for safe and unsafe
  calls alike (`AtMostOnce.MixedKeysRepeat`); without such sharing they are not (`AtMostOnce.DisciplineIsExact`).
- Disabling consent can return while an earlier mutation of the same host runs, when a deadline is refused after
  dispatch, a call id is reused while active, or a wait is interrupted twice
  (`ConsentProtocol.UndisciplinedBarrierBreaks`, `ConsentProtocol.BarrierIsExact`). Whether a second interruption ends
  the wait of a call that is not draining depends on the Python version; the model lets it.
- A mutation that is to drain is cancelled all the same when a disable, or a close of the host, is cancelled while it
  awaits that mutation (`ConsentProtocol.AbortedSweepCancels`), and only then (`ConsentProtocol.SparingIsExact`).
- Releasing a principal frees the machine's lease under one of its mutations that was admitted after the release took
  its snapshot (`PrincipalRelease.LateCallIsUnlocked`) or runs on another host (`PrincipalRelease.OtherHostIsUnlocked`);
  closing a host does so for the principals it knows (`PrincipalRelease.CloseUnlocksOtherHost`). Calls that reuse an id
  or are left before their task is done are not awaited either. `PrincipalRelease.CarefulIsExact` has the condition.
- The lease of an outcome in doubt is to be retained until it expires, but the doubt is known to one host only: a
  release on another or restarted host frees it (`PrincipalRelease.OtherHostForgetsDoubt`), and so does any close of
  a host that knows the principal (`PrincipalRelease.CloseForgetsDoubt`, `PrincipalRelease.OrphanIsExact`).
- A shutdown that overlaps a pending drain closes shared components twice (`HotSwap.OverlappingClosesBreak`), and so
  does one after a reconfiguration that was cancelled while it closed the old graph (`HotSwap.RepeatedCloseBreaks`,
  `HotSwap.SoloIsExact`).
- A rollback that ends early, because a close raises or it is cancelled, leaves components referenced that no started
  graph has (`HotSwap.RaisingRollbackLeaks`), and a close cancelled midway leaves a started graph without some of its
  own (`HotSwap.CancelledCloseLoses`). `HotSwap.LeaksAreExact` has the condition for references and started graphs to
  agree at rest.
- A run cancelled before its first instruction keeps its graph's lease, and the graph's drain never ends
  (`SwapProgress.DrainStalls`). A drain ends exactly when the runs are over and none was (`SwapProgress.DrainIsExact`).
- A request to cancel that is recorded between the reading and the writing of a run's outcome is lost, and the run
  succeeds (`RunCancellation.LateRequestIsLost`), only then (`RunCancellation.CancellationIsExact`).
- Sealing an export compares identifiers only, so one with the identifier of another completed request is ready at
  once (`PrivacyDelivery.ReusedIdentifierIsReady`). What is ready is the ledger's own request exactly when identifiers
  are not shared so (`PrivacyDelivery.ReadyIsOwnExactly`).
- Accepting a run into a session with older, unindexed history breaks the outbox agreement until the next
  start (`SearchOutbox.LegacyAdoptionBreaks`, `SearchOutbox.AcceptIsExact`).
- A fragment path that indexes into a string is accepted beside fragments of the value encoded in it, and its
  erasure changes them (`Fragments.ImproperFragmentLeaks`). Erasure is local exactly when no path does
  (`FragmentLocality.LocalityIsExact`).
- `split_preserving_code_blocks` documents chunks of at most `max_len`; reopened and closed fences come on top
  (`FenceSplitter.LongestIsReached`). The limit holds for all texts exactly below three (`FenceSplitter.LimitIsExact`),
  and always for text without fences (`FenceSplitter.FenceFreeTextFits`).
- A purge leaves the index with the session's tool invocations (`SearchOutbox.PurgedToolStaysIndexed`); it leaves nothing
  behind exactly when there are none (`SearchOutbox.PurgeNoticesAreExact`).

## Model

| member | source | states |
|---|---|---|
| PrivacyProtocol.RedactionComplete | packages/storage-sqlite/src/openagent_storage_sqlite/content_privacy.py:195-246 | In every reachable state, if a redact request is complete, then every recorded revision that descends through any chain of parents from a matching origin is a target and some worker holding the request's lease got `complete` from its sink for exactly that revision |
| PrivacyProtocol.RedactScopeIsFrozen | packages/storage-sqlite/src/openagent_storage_sqlite/content_privacy.py:229-246 | The set of recorded revisions a redact request reaches is the same in every continuation of every run: what would enlarge it is refused |
| PrivacyProtocol.LateDescendantIsRefused | packages/storage-sqlite/src/openagent_storage_sqlite/content_privacy.py:195-224 | After the request was enqueued, recording or publishing a revision whose parents descend from matching content is refused and changes nothing, in every continuation |
| PrivacyProtocol.LateOriginIsRefused | packages/storage-sqlite/src/openagent_storage_sqlite/content_privacy.py:195-224 | The same for a revision that brings a matching origin of its own |
| PrivacyProtocol.CompleteIsEarnedAndFinal | packages/storage-sqlite/src/openagent_storage_sqlite/content_privacy.py:262-344 | `complete` means each target has a receipt for its exact recorded revision; it is absorbing over every continuation |
| PrivacyProtocol.StaleTokensAreInert | packages/storage-sqlite/src/openagent_storage_sqlite/content_privacy.py:262-313 | A token that lost the lease neither marks a target nor closes the job again in any continuation, so two tokens never work on one request together |
| PrivacyProtocol.UnknownScopeNeverCompletes | packages/storage-sqlite/src/openagent_storage_sqlite/content_privacy.py:262-290 | A target with a matching origin without subjects keeps a subject-scoped request from ever completing |
| PrivacyProtocol.KnownScopeCanComplete | packages/storage-sqlite/src/openagent_storage_sqlite/content_privacy.py:262-344 | Without such a target, a run exists in which the request completes: the condition is exact |
| PrivacyProtocol.RunKeeps | packages/storage-sqlite/src/openagent_storage_sqlite/content_privacy.py:315-344 | Provenance, frozen scopes, leases, worker lists and receipts are kept by every interleaving of writers, workers and crashes |
| PrivacyTables.AncestorsAreInherited | packages/storage-sqlite/src/openagent_storage_sqlite/content_privacy.py:195-224 | A revision carries the origins of all its transitive parents, within its tenant |
| PrivacyTables.ProvenanceIsAcyclic | packages/storage-sqlite/src/openagent_storage_sqlite/content_privacy.py:195-224 | Every ancestor was recorded strictly earlier, so no revision is its own ancestor |
| PrivacyTables.WorkListIsExact | packages/storage-sqlite/src/openagent_storage_sqlite/content_privacy.py:262-290 | A claim's work list names exactly the unfinished targets, artifact by artifact, newest first |
| PrivacyTables.RecordKeepsScopes | packages/storage-sqlite/src/openagent_storage_sqlite/content_privacy.py:195-224 | An inserted revision never enlarges the scope of an enqueued redact request |
| PrivacyStore.SqliteContentPrivacyStore.Record | packages/storage-sqlite/src/openagent_storage_sqlite/content_privacy.py:195-224 | The imperative record transaction, with its inheritance loops, computes the specified tables and outcome |
| PrivacyStore.SqliteContentPrivacyStore.Enqueue | packages/storage-sqlite/src/openagent_storage_sqlite/content_privacy.py:229-246 | Enqueue snapshots the targets and is idempotent for the same request, refused for a different one |
| PrivacyStore.SqliteContentPrivacyStore.Claim | packages/storage-sqlite/src/openagent_storage_sqlite/content_privacy.py:262-290 | Claim grants, blocks or waits exactly as specified, by coverage, lease and unknown scope |
| PrivacyStore.SqliteContentPrivacyStore.FinishRevision | packages/storage-sqlite/src/openagent_storage_sqlite/content_privacy.py:291-302 | Marks one target under the current token only and extends the lease |
| PrivacyStore.SqliteContentPrivacyStore.FinishJob | packages/storage-sqlite/src/openagent_storage_sqlite/content_privacy.py:303-313 | Closes the job under the current token as complete or blocked |
| PrivacyReach.GenerationsAreCutOff | packages/runtime/src/openagent_core/content_privacy.py:79-83 | What a request reaches is observed from outside: an origin is reached when a ledger that knows only the request refuses new content that carries it. A generation is reached exactly when it is at most the request's, inclusive, and generation zero is |
| PrivacyReach.LaterRequestsReachMore | packages/runtime/src/openagent_core/content_privacy.py:79-83 | A request through a later generation reaches everything an earlier one reaches |
| PrivacyReach.OthersAreUnreached | packages/runtime/src/openagent_core/content_privacy.py:79-83 | Nothing of another tenant, source or group is reached |
| PrivacyReach.UnscopedReachesTheGroup | packages/runtime/src/openagent_core/content_privacy.py:79-83 | Without subjects everything of the group up to the generation is reached, whoever it is about |
| PrivacyReach.SubjectScopesUnite | packages/runtime/src/openagent_core/content_privacy.py:79-83 | A subject scope reaches exactly what its single subjects reach together |
| PrivacyReach.OneSubjectReachesItsOwn | packages/runtime/src/openagent_core/content_privacy.py:79-83 | One subject reaches, of what the group alone would, the personal origins that name it or name nobody, and no others |
| PrivacyReach.TargetsAreReached | packages/storage-sqlite/src/openagent_storage_sqlite/content_privacy.py:229-246 | The targets of a new request are exactly its tenant's revisions with an origin in reach, all unfinished |
| PrivacyReach.RecordIsExact | packages/storage-sqlite/src/openagent_storage_sqlite/content_privacy.py:195-224 | A revision is recorded exactly when its references are good, its origins its tenant's and out of every redact request's reach, and its identity unused; its row has its own origins and its parents', and a used identity is confirmed for that row only |
| PrivacyReach.RefusalIsExact | packages/storage-sqlite/src/openagent_storage_sqlite/content_privacy.py:195-224 | Which of the refusals a revision gets |
| PrivacyReach.RecordedAgain | packages/storage-sqlite/src/openagent_storage_sqlite/content_privacy.py:175-224 | What was recorded can be recorded and published again, nothing else under its name, and nothing unrecorded is published |
| PrivacyReach.EnqueuedOnce | packages/storage-sqlite/src/openagent_storage_sqlite/content_privacy.py:229-246 | Enqueuing is idempotent, an identity names one request for ever, and a new job is pending and unleased |
| PrivacyReach.CompletedRedactionErased | packages/storage-sqlite/src/openagent_storage_sqlite/content_privacy.py:195-344 | Once a redact request is complete, its sink has erased every recorded revision that carries an origin of its tenant, source, group and generations: of anybody when it names no subject, and of the subjects it names |
| PrivacyReach.TargetsAreJustified | packages/storage-sqlite/src/openagent_storage_sqlite/content_privacy.py:229-246 | No revision is a target without such an origin that may concern one of the request's subjects |
| PrivacyLeases.ClaimIsExact | packages/storage-sqlite/src/openagent_storage_sqlite/content_privacy.py:262-290 | A claim is granted exactly when the request is open, the last lease over, all surfaces covered and nothing left to do of unknown subjects; while a lease runs it changes nothing; otherwise it blocks the job with the reason |
| PrivacyLeases.GrantsAreSeparated | packages/storage-sqlite/src/openagent_storage_sqlite/content_privacy.py:262-290 | Over every run, between two grants of one request the first token, still the holder, closes the job in time, or its own lease is over when a claim comes |
| PrivacyLeases.KeepingUpKeepsTheLease | packages/storage-sqlite/src/openagent_storage_sqlite/content_privacy.py:262-302 | Over every run, a worker that marks before each end keeps the lease to the end its last mark set, and every claim meanwhile is declined and changes nothing |
| PrivacyLeases.MarkIsExact | packages/storage-sqlite/src/openagent_storage_sqlite/content_privacy.py:291-302 | Before the end of its lease a token marks exactly the target it names and renews; from then on it marks nothing |
| PrivacyLeases.ClosingIsExact | packages/storage-sqlite/src/openagent_storage_sqlite/content_privacy.py:303-313 | Before that end it closes the job, complete exactly when nothing failed and nothing is left; from then on it changes nothing |
| PrivacyLeases.FailureBlocks | packages/storage-sqlite/src/openagent_storage_sqlite/content_privacy.py:324-344 | A job whose sink refused, was missing or raised is blocked for that very reason when its worker closes in time, and marks nothing |
| PrivacyLeases.AnswersAreNoted | packages/storage-sqlite/src/openagent_storage_sqlite/content_privacy.py:326-334 | A worker notes a receipt for exactly its current target and goes on, or gives up with the reason |
| PrivacyLeases.GrantsStartWorkers | packages/storage-sqlite/src/openagent_storage_sqlite/content_privacy.py:276-290 | A granted claim starts a worker with the whole work list, revision by revision |
| PrivacyExports.CompletedRedactionEmptiesSpool | packages/storage-sqlite/src/openagent_storage_sqlite/privacy_exports.py:252-294 | When a redact request is complete, no ciphertext in the spool descends from content it reaches, and the export requests of the erased parts are revoked |
| PrivacyExports.ErasedPartRevokesForever | packages/storage-sqlite/src/openagent_storage_sqlite/privacy_exports.py:142-198 | A request with an erased part stays revoked: sealing, downloading, acknowledging and delivery never succeed for it again |
| PrivacyExports.ReadablePartIsUnreached | packages/storage-sqlite/src/openagent_storage_sqlite/privacy_exports.py:157-184 | A part that can be downloaded is reached by no redact request, finished or not |
| PrivacyExports.CopiesFollowTheirSource | packages/storage-sqlite/src/openagent_storage_sqlite/privacy_exports.py:84-122 | A staged copy is in the scope of every request that reaches its source |
| PrivacyExports.RunKeeps | packages/storage-sqlite/src/openagent_storage_sqlite/privacy_exports.py:84-294 | Spool and ledger stay coherent over every interleaving, lost answers and busy checkpoints included |
| PrivacyDownloads.ErasedPartStopsDownload | packages/storage-sqlite/src/openagent_storage_sqlite/privacy_exports.py:157-184 | A download in flight that still has to read a part erased meanwhile never returns, in any continuation |
| PrivacyDownloads.FullyReadDownloadReturns | packages/storage-sqlite/src/openagent_storage_sqlite/privacy_exports.py:179-184 | One that has read all its parts returns what it read whatever ledger and spool do meanwhile, erasures included; when its request was revoked its token is not kept |
| PrivacyDownloads.RevokedRequestDeliversNothing | packages/storage-sqlite/src/openagent_storage_sqlite/privacy_exports.py:144-198 | After a revocation no download of the request begins and no token of any download is acknowledged, in any continuation |
| PrivacyDownloads.ReadsAreUnreached | packages/storage-sqlite/src/openagent_storage_sqlite/privacy_exports.py:167-176 | What a download reads is reached by no redact request at that moment |
| PrivacyDownloads.RunKeeps | packages/storage-sqlite/src/openagent_storage_sqlite/privacy_exports.py:157-184 | Ledger, spool and downloads stay coherent over every interleaving |
| ExportSpool.EncryptedPrivacyExports.Export | packages/storage-sqlite/src/openagent_storage_sqlite/privacy_exports.py:84-122 | Staging a part: new parts are fenced, repetitions are recognised, conflicts refused |
| ExportSpool.EncryptedPrivacyExports.SealRequest | packages/storage-sqlite/src/openagent_storage_sqlite/privacy_exports.py:124-142 | A request becomes ready exactly when the ledger reports its export request complete and it is neither revoked nor another request |
| ExportSpool.EncryptedPrivacyExports.Download | packages/storage-sqlite/src/openagent_storage_sqlite/privacy_exports.py:157-184 | Discloses all parts or none, past actor, source and fence checks part by part, and issues a new token |
| ExportSpool.EncryptedPrivacyExports.AcknowledgeDelivery | packages/storage-sqlite/src/openagent_storage_sqlite/privacy_exports.py:186-198 | Delivery is acknowledged only with the last issued token |
| ExportSpool.EncryptedPrivacyExports.ApplyRedaction | packages/storage-sqlite/src/openagent_storage_sqlite/privacy_exports.py:259-294 | Erases the exact staged revision, revokes its request, and answers complete only when the erasure was checkpointed |
| PrivacyDelivery.ReadyIsWhole | packages/storage-sqlite/src/openagent_storage_sqlite/privacy_exports.py:124-142 | Over all runs a request that is ready, has a token or is delivered has a complete job under its identifier, with a receipt for every target's exact revision |
| PrivacyDelivery.DownloadsAreWhole | packages/storage-sqlite/src/openagent_storage_sqlite/privacy_exports.py:144-184 | Over all runs a download is under way or returned only for such a job, and what it has read is, part for part of its request, the payload that was staged |
| PrivacyDelivery.ReturnedIsEverything | packages/storage-sqlite/src/openagent_storage_sqlite/privacy_exports.py:157-184 | A download that returns has read every part its request had when it listed them |
| PrivacyDelivery.ReadyIsOwnExactly | packages/storage-sqlite/src/openagent_storage_sqlite/privacy_exports.py:124-142 | What is ready is the ledger's own request, over all runs, if and only if no identifier is used for an export and for something else |
| PrivacyDelivery.ReusedIdentifierIsReady | packages/storage-sqlite/src/openagent_storage_sqlite/privacy_exports.py:128-136 | The run that shows it: with the identifier of another, completed job an export is ready that the ledger was never asked for |
| PrivacyDelivery.SealIsExact | packages/storage-sqlite/src/openagent_storage_sqlite/privacy_exports.py:124-142 | When a request is sealed, and that only its state moves |
| PrivacyDelivery.WritingIsExact | packages/storage-sqlite/src/openagent_storage_sqlite/privacy_exports.py:106-121 | When a part is staged, that a new one holds the payload and a repetition changes nothing |
| PrivacyDelivery.FenceIsExact | packages/storage-sqlite/src/openagent_storage_sqlite/privacy_exports.py:175-183 | A copy passes the fence exactly when it is the recorded copy of its source and no redact request reaches it |
| PrivacyDelivery.TokensAreExact | packages/storage-sqlite/src/openagent_storage_sqlite/privacy_exports.py:178-198 | Only the last token issued to a ready request is acknowledged, and that makes it delivered |
| PrivacyDelivery.ErasureIsExact | packages/storage-sqlite/src/openagent_storage_sqlite/privacy_exports.py:281-293 | Erasing hits the very revision, takes its payload and its request's token, and revokes the request |
| Fragments.EveryLeafIsClassifiedOnce | packages/runtime/src/openagent_core/content_privacy.py:160-189 | If a partition is accepted, every scalar or empty-container leaf lies under exactly one fragment, unless it is a string whose encoded value is partitioned instead |
| FragmentAcceptance.AcceptanceIsExact | packages/runtime/src/openagent_core/content_privacy.py:160-189 | A partition is accepted if and only if its paths are disjoint and can be followed, its origins are the tenant's, and every leaf lies under a fragment or is a string that a fragment enters |
| FragmentAcceptance.EntryIsExact | packages/runtime/src/openagent_core/content_privacy.py:176-186 | Encoded JSON is entered up to eight mebibytes of UTF-8 and only in a string that holds one unambiguous value |
| Fragments.ValidateResult | packages/runtime/src/openagent_core/content_privacy.py:160-189 | The validation loop accepts exactly the partitions the specification accepts |
| Fragments.SelectLoop | packages/runtime/src/openagent_core/content_privacy.py:176-186 | The selector loop computes the specified subtree or its error |
| Fragments.GetLoop | packages/storage-sqlite/src/openagent_storage_sqlite/privacy_json.py:14-22 | The lookup loop of the storage selector computes the specified value or its error |
| Fragments.ReplacedFragmentReads | packages/storage-sqlite/src/openagent_storage_sqlite/privacy_json.py:25-35 | Reading a replaced fragment gives the new value exactly when every string encoded again on the way stays within 8 MiB, and an error otherwise |
| Fragments.OtherFragmentsStay | packages/storage-sqlite/src/openagent_storage_sqlite/privacy_json.py:25-35 | Replacing a fragment leaves every other disjoint fragment as it was, through any nesting of encoded JSON |
| Fragments.ErasureIsLocal | packages/storage-sqlite/src/openagent_storage_sqlite/privacy_json.py:14-35 | Erasing any selection of an accepted partition, in any order, leaves null at each and every other fragment as classified, for paths that enter strings only at boundaries |
| FragmentLocality.LocalityIsExact | packages/runtime/src/openagent_core/content_privacy.py:160-189 | That condition is exact: for an accepted partition, erasure is local for every selection that fits if and only if every path enters strings only at boundaries. A selection fits when every string encoded again stays within the bound, up to the first path that enters a string otherwise or cannot be replaced |
| FragmentLocality.ImproperIsNotLocal | packages/storage-sqlite/src/openagent_storage_sqlite/privacy_json.py:14-35 | With one path that indexes into a string, either nothing is erased and it reads otherwise than classified, or its own erasure is seen elsewhere |
| FragmentLocality.NullIsSeen | packages/storage-sqlite/src/openagent_storage_sqlite/privacy_json.py:25-35 | Along the walk of an accepted result, a replacement no other fragment sees made no null that was not there |
| Fragments.ImproperFragmentLeaks | packages/runtime/src/openagent_core/content_privacy.py:176-189 | Why that condition: a selector that indexes the characters of a string is accepted, yet erasing it changes another fragment |
| JsonText.RoundTrip | packages/runtime/src/openagent_core/contracts.py:15-16 | Parsing a printed value gives it back, with or without the duplicate-key check |
| JsonText.PrintIsInjective | packages/runtime/src/openagent_core/contracts.py:15-16 | Canonical texts are equal only for equal values |
| Utf8.RoundTrip | packages/runtime/src/openagent_core/contracts.py:144-146 | Strict decoding gives back every encoded string |
| SessionToken.TokenRoundTrip | packages/runtime/src/openagent_core/contracts.py:144-158 | For any four nonblank strings, parsing the token gives the reference back |
| SessionToken.TokensAreInjective | packages/runtime/src/openagent_core/contracts.py:144-158 | Different references have different tokens |
| SessionToken.ParsedRefersBack | packages/runtime/src/openagent_core/contracts.py:148-158 | Whatever parses is a valid reference whose own token reads back to it |
| SessionToken.NonBlankIsStripped | packages/runtime/src/openagent_core/contracts.py:140-142 | A part counts as given exactly when something is left of it without the white space at its ends |
| SessionToken.ParseIsNotInjective | packages/runtime/src/openagent_core/contracts.py:148-158 | Tokens are not the only texts that parse: foreign characters are skipped, so every reference has another spelling |
| Base64.RoundTrip | packages/runtime/src/openagent_core/contracts.py:144-156 | Stripped and recomputed padding decodes to the bytes, with foreign ASCII characters ignored and all others refused |
| Base64.UnfinishedIsRefused | packages/runtime/src/openagent_core/contracts.py:153-156 | A group that is begun must be completed, by characters or by padding |
| Base64.BeyondAsciiIsRefused | packages/runtime/src/openagent_core/contracts.py:153-156 | Text beyond ASCII is refused wherever it stands |
| AtMostOnce.DisciplinedKeysDispatchOnce | packages/capability-host/src/openagent_capability_host/idempotency.py:112-272 | Over all runs of several hosts with retries, renewals, crashes and a monotone clock: after an unsafe dispatch, its key is not dispatched again within that host's result lifetime, for keys not shared by safe and unsafe calls |
| AtMostOnce.DisciplineIsExact | packages/capability-host/src/openagent_capability_host/host.py:538-701 | That condition is exact: at most once holds over all runs if and only if the key's fingerprints are all safe or all unsafe |
| AtMostOnce.MixedKeysRepeat | packages/capability-host/src/openagent_capability_host/idempotency.py:152-173 | The run that breaks it: a safe call that lost its claim to a takeover abandons the row its host holds later for a mutation |
| AtMostOnce.IndeterminateIsFinal | packages/capability-host/src/openagent_capability_host/idempotency.py:264-272 | A recorded indeterminate row never changes in any run |
| AtMostOnce.ReplayIsFaithful | packages/capability-host/src/openagent_capability_host/idempotency.py:150-151 | For a mutation's key, a replayed result was recorded for the very arguments of the retry |
| AtMostOnce.RunKeeps | packages/capability-host/src/openagent_capability_host/host.py:364-418 | A pending call owns its row and is alone, and what was dispatched is barred, over every run |
| AtMostOnce.MutationsLeaveATrace | packages/capability-host/src/openagent_capability_host/host.py:326-515 | Over all runs, until its lifetime is over a dispatched mutation's key has a row for the same arguments: executing under the very host, recorded beyond that lifetime, or in doubt |
| LedgerAnswers.CompletedIsReplayed | packages/capability-host/src/openagent_capability_host/idempotency.py:150-151 | A mutation's call that ends with a result is replayed from then on to every retry by any host, restarted or not, for the result lifetime of its host, over every run |
| LedgerAnswers.RecordedIsReplayed | packages/capability-host/src/openagent_capability_host/idempotency.py:112-173 | Over every run, until it expires a recorded result is what every host that asks for the same is told, every other request under the key is a conflict, and the row stays |
| LedgerAnswers.ExpiredIsForgotten | packages/capability-host/src/openagent_capability_host/idempotency.py:112-130 | From its expiry on the key is free for anything |
| LedgerAnswers.KeptUpIsInFlight | packages/capability-host/src/openagent_capability_host/idempotency.py:152-173 | Over every run a mutation whose lease is renewed in time is told to be in flight; once it lapsed it is in doubt, never new |
| LedgerAnswers.DoubtIsTold | packages/capability-host/src/openagent_capability_host/idempotency.py:264-272 | An outcome in doubt is never called anything else, to any host, at any later time |
| LedgerAnswers.GivenUpIsFree | packages/capability-host/src/openagent_capability_host/idempotency.py:252-258 | A claim given up leaves the key free for the next |
| LedgerAnswers.AnswersAreExact | packages/capability-host/src/openagent_capability_host/idempotency.py:112-173 | Which answer a claim gets, by the row that counts, the host, the time and whether the call may be retried |
| LedgerAnswers.ClaimWritesItsRow | packages/capability-host/src/openagent_capability_host/idempotency.py:112-173 | A new claim has the key for its host for its lease and lifetime; every other answer leaves the rows that count alone |
| LedgerAnswers.OwnersMoveTheirRow | packages/capability-host/src/openagent_capability_host/idempotency.py:209-272 | Only the host whose call is executing moves the row, and what each operation moves |
| LedgerAnswers.OutcomesAreExact | packages/capability-host/src/openagent_capability_host/host.py:326-509 | How a call's row ends and whether the machine stays leased, by what happened |
| LedgerAnswers.CallsEndTheirRow | packages/capability-host/src/openagent_capability_host/host.py:326-515 | What the end of a call leaves of its row |
| Ledger.IdempotencyLedger.ClaimSync | packages/capability-host/src/openagent_capability_host/idempotency.py:112-204 | The claim transaction with all its branches; raised answers roll back, the mark of line 195 included |
| Ledger.IdempotencyLedger.RenewSync | packages/capability-host/src/openagent_capability_host/idempotency.py:209-223 | Renews only an executing row of this owner |
| Ledger.IdempotencyLedger.CompleteSync | packages/capability-host/src/openagent_capability_host/idempotency.py:228-246 | Completes only an executing row of this owner and restarts its lifetime |
| Ledger.IdempotencyLedger.AbandonSync | packages/capability-host/src/openagent_capability_host/idempotency.py:252-258 | Removes only an executing row of this owner |
| Ledger.IdempotencyLedger.MarkIndeterminateSync | packages/capability-host/src/openagent_capability_host/idempotency.py:264-272 | Marks only an executing row of this owner |
| ArgumentNumbers.NormalizedDecidesSameness | packages/capability-host/src/openagent_capability_host/idempotency.py:275-295 | Normalised arguments are equal exactly when the arguments are equal up to the spelling of numbers |
| ArgumentNumbers.NormalizedIsStable | packages/capability-host/src/openagent_capability_host/idempotency.py:275-295 | Normalising twice changes nothing |
| MutatingLease.EntriesAreSeparated | packages/capability-host/src/openagent_capability_host/lease.py:63-168 | Between successful entries of two different calls the first leaves, is released, or its lease is over |
| MutatingLease.HeldUntilEnded | packages/capability-host/src/openagent_capability_host/lease.py:63-168 | While nothing ends a call's hold, it keeps the lease and no other call can enter |
| MutatingLease.RunKeepsLockstep | packages/capability-host/src/openagent_capability_host/lease.py:63-205 | A lease row exists exactly when one call row does, with the same holder and expiry, over every run |
| LeaseDeadlines.KeepingUpKeepsTheMachine | packages/capability-host/src/openagent_capability_host/lease.py:63-132 | Over every run a call that enters or renews before each end has the machine until its last end, all its renewals succeed, and no other entry does |
| LeaseDeadlines.EndedHoldIsFree | packages/capability-host/src/openagent_capability_host/lease.py:63-108 | From that end on any call may enter |
| LeaseDeadlines.SuccessSetsTheEnd | packages/capability-host/src/openagent_capability_host/lease.py:63-132 | A successful entry or renewal has the machine until its period is over, to the instant, and no other call has it at any time |
| LeaseDeadlines.AnswersAreExact | packages/capability-host/src/openagent_capability_host/lease.py:63-132 | A call may enter exactly when no other has the machine, and renew exactly while it has it itself |
| LeaseDeadlines.EndsAreExact | packages/capability-host/src/openagent_capability_host/lease.py:137-168 | Leaving and releasing end the hold of the call or principal, and nobody else's time moves |
| LeaseDeadlines.AcquisitionStays | packages/capability-host/src/openagent_capability_host/lease.py:93-103 | The acquisition time is that of the first entry of an unbroken hold |
| MutatingLease.LeaseClient.EnterSync | packages/capability-host/src/openagent_capability_host/lease.py:63-108 | Enters a free or expired machine, or for the very call that holds it; otherwise nothing changes |
| MutatingLease.LeaseClient.RenewSync | packages/capability-host/src/openagent_capability_host/lease.py:113-132 | Renews both tables for the holding call only |
| MutatingLease.LeaseClient.LeaveSync | packages/capability-host/src/openagent_capability_host/lease.py:137-159 | Frees the machine for the call that holds it and does nothing for any other |
| MutatingLease.LeaseClient.ReleaseSync | packages/capability-host/src/openagent_capability_host/lease.py:164-168 | Frees whatever the principal holds |
| MutatingLease.LeaseClient.ExpireLocked | packages/capability-host/src/openagent_capability_host/lease.py:199-205 | Clears both tables exactly when the lease is over |
| MutatingLease.LeaseClient.LatestExpiry | packages/capability-host/src/openagent_capability_host/lease.py:145-149 | The latest expiry among a holder's calls, none without calls |
| ConsentProtocol.DisciplinedBarriersHold | packages/capability-host/src/openagent_capability_host/host.py:131-151 | When disabling returns, every unfinished task was dispatched under a later grant of consent, over every interleaving, given valid deadlines, call ids not reused while active, and no wait interrupted twice |
| ConsentProtocol.BarrierIsExact | packages/capability-host/src/openagent_capability_host/host.py:264-362 | The barrier holds over all runs if and only if all three conditions are enforced |
| ConsentProtocol.UndisciplinedBarrierBreaks | packages/capability-host/src/openagent_capability_host/host.py:326-332 | For each missing condition, a run in which disabling returns while an earlier mutation still runs |
| ConsentProtocol.SparingIsExact | packages/capability-host/src/openagent_capability_host/host.py:138-146 | A run asks a draining mutation to cancel if and only if it aborts a disable, or a close of the host, over one that still runs; call ids may be reused |
| ConsentProtocol.PatientRunsSpareMutations | packages/capability-host/src/openagent_capability_host/host.py:703-712 | Without such an abort no cancellation, timeout, disable or close asks a draining mutation to cancel |
| ConsentProtocol.AbortedSweepCancels | packages/capability-host/src/openagent_capability_host/host.py:814-825 | Cancelling a pending disable or a pending close of the host cancels what it gathered, a draining mutation included, with all three conditions on callers met |
| ConsentProtocol.RunKeeps | packages/capability-host/src/openagent_capability_host/host.py:538-701 | Every unfinished task stays tracked, and a disable or a close of the host waits for all of them |
| CapabilityHost.LocalHost.Dispatch | packages/capability-host/src/openagent_capability_host/host.py:651-695 | Consent is read again in the segment that creates the provider task; without it nothing is dispatched |
| CapabilityHost.LocalHost.CancelActive | packages/capability-host/src/openagent_capability_host/host.py:141-146 | Under the lock, every cancellable active task is asked to cancel and the snapshot to wait for is taken |
| CapabilityHost.LocalHost.ReadResource | packages/capability-host/src/openagent_capability_host/host.py:186-216 | Resource reads cross the same barrier and refuse a call id in use and a closing host |
| CapabilityHost.LocalHost.CancelCall | packages/capability-host/src/openagent_capability_host/host.py:703-712 | Cancels an active call that may be cancelled and answers whether one was found |
| CapabilityHost.LocalHost.BeginAdmission | packages/capability-host/src/openagent_capability_host/host.py:538-554 | An admission takes the free barrier only while consent holds |
| CapabilityHost.LocalHost.Forget | packages/capability-host/src/openagent_capability_host/host.py:233-237 | A leaving call or read removes whatever stands under its call id; a read keeps the mark against cancellation |
| CapabilityHost.LocalHost.RevokeConsent | packages/capability-host/src/openagent_capability_host/host.py:132-133 | Consent is durably off before the barrier is taken |
| CapabilityHost.LocalHost.Drained | packages/capability-host/src/openagent_capability_host/host.py:145-146 | The disable or close goes on once every task of its snapshot is done |
| CapabilityHost.LocalHost.BeginClose | packages/capability-host/src/openagent_capability_host/host.py:814-820 | A close stops reads at once and then waits for the barrier; consent stays as it is |
| CapabilityHost.LocalHost.AbortSweep | packages/capability-host/src/openagent_capability_host/host.py:141-146 | A disable or close that is cancelled cancels what it gathers and keeps the barrier; cancelled elsewhere it frees it |
| CapabilityHost.LocalHost.Unwound | packages/capability-host/src/openagent_capability_host/host.py:145-146 | A cancelled gathering frees the barrier only when its last task is done |
| CapabilityHost.LocalHost.FinishSweep | packages/capability-host/src/openagent_capability_host/host.py:147-151 | Returning releases the barrier |
| BarrierEffects.DispatchIsExact | packages/capability-host/src/openagent_capability_host/host.py:664-695 | A dispatch lists its task under the call's identifier, marked when it must drain, and frees the barrier, all under consent |
| BarrierEffects.TakingIsExact | packages/capability-host/src/openagent_capability_host/host.py:141-146 | A disable or close asks exactly the tasks that may be cancelled, and waits for all that are listed |
| BarrierEffects.ReturningIsExact | packages/capability-host/src/openagent_capability_host/host.py:145-151 | It goes on when these are done, returns, and leaves the barrier free |
| BarrierEffects.AbortingIsExact | packages/capability-host/src/openagent_capability_host/host.py:141-146 | Cancelled while it waits it cancels what it waits for and keeps the barrier |
| BarrierEffects.CancelIsExact | packages/capability-host/src/openagent_capability_host/host.py:703-712 | A cancellation asks the task found under the identifier if it may be cancelled, and nothing else |
| BarrierEffects.InterruptIsExact | packages/capability-host/src/openagent_capability_host/host.py:329-333 | An interrupted wait cancels its task unless the task must drain |
| PrincipalRelease.DisciplinedReleasesAreCareful | packages/capability-host/src/openagent_capability_host/host.py:714-768 | Over all runs of several hosts that share the machine's lease, neither the release of a principal nor the close of a host unlocks the machine under a running effect of the principal on any host, given five conditions on callers |
| PrincipalRelease.CarefulIsExact | packages/capability-host/src/openagent_capability_host/host.py:714-768 | Those conditions are exact: the principal admits nothing while it is released; it is released, and a host that knows it closed, only while none of its calls runs on another host; no call id is reused while listed; no call is left before its task is done |
| PrincipalRelease.LateCallIsUnlocked | packages/capability-host/src/openagent_capability_host/host.py:714-722 | A call admitted after the release took its snapshot loses the machine's lease while it runs |
| PrincipalRelease.OtherHostIsUnlocked | packages/capability-host/src/openagent_capability_host/lease.py:164-168 | A call running on one host loses the lease when the principal is released on another |
| PrincipalRelease.CloseUnlocksOtherHost | packages/capability-host/src/openagent_capability_host/host.py:831-832 | Or when another host that knows the principal is closed |
| PrincipalRelease.UndisciplinedReleaseUnlocks | packages/capability-host/src/openagent_capability_host/host.py:724-768 | For each missing condition, a run that unlocks the machine under a running effect |
| PrincipalRelease.OrphanIsExact | packages/capability-host/src/openagent_capability_host/host.py:767-768 | A lease whose call is over stays through a run if and only if it neither expires, nor is its call made again, nor does a host without the doubt release the principal, nor a host that knows it close |
| PrincipalRelease.DoubtKeepsTheLease | packages/capability-host/src/openagent_capability_host/host.py:505-509 | The lease of a call whose outcome is in doubt survives every release by the host that noted the doubt, while no other host releases the principal, none that knows it closes, the lease does not expire and the call is not made again |
| PrincipalRelease.OtherHostForgetsDoubt | packages/capability-host/src/openagent_capability_host/host.py:767-768 | Releasing the principal on another host, or on the same one restarted, frees a lease in doubt |
| PrincipalRelease.CloseForgetsDoubt | packages/capability-host/src/openagent_capability_host/host.py:831-832 | Closing the host that noted the doubt frees it too |
| PrincipalRelease.RunKeepsAccounts | packages/capability-host/src/openagent_capability_host/host.py:505-509 | Over every run a lease belongs to a listed call, to a principal in doubt on some host, or to a call whose host died |
| ReleaseEffects.EndingIsExact | packages/capability-host/src/openagent_capability_host/host.py:750-771 | A release ends when the calls it listed have left, and frees the principal's lease unless its host has a doubt |
| ReleaseEffects.ClosingIsExact | packages/capability-host/src/openagent_capability_host/host.py:820-832 | A close frees the lease of a principal its host knows, whatever the doubt, once the tasks it lists are done |
| ReleaseEffects.FinishIsExact | packages/capability-host/src/openagent_capability_host/host.py:498-515 | A call that ends well gives back a lease that is still its own; one in doubt keeps it and its host notes that |
| RunAutomaton.RunAdvances | packages/storage-sqlite/src/openagent_storage_sqlite/__init__.py:263-330 | Without a purge, every run's status follows queued, running, terminal over any operations; a terminal status and its output never change |
| RunAutomaton.StepAdvances | packages/storage-sqlite/src/openagent_storage_sqlite/__init__.py:171-232 | One operation advances runs by the automaton; new runs are born queued, or cancelled exactly when reserved |
| RunService.StartsAtMostOnce | packages/runtime/src/openagent_core/runtime.py:669-778 | The executor starts at most once per run, as it goes from queued to running, under retries, cancellations, crashes and recovery |
| RunService.ReservedNeverExecutes | packages/storage-sqlite/src/openagent_storage_sqlite/__init__.py:304-330 | A run reserved for cancellation before its acceptance never executes |
| RunService.BarredNeverStarts | packages/runtime/src/openagent_core/runtime.py:803-822 | Nor does a run whose cancellation was requested before its check, in any continuation |
| RunCancellation.CancellationIsExact | packages/runtime/src/openagent_core/runtime.py:747-755 | A run that was asked to cancel can still succeed if and only if its coroutine had read the intent before and is about to publish |
| RunCancellation.AskedRunsNeverSucceed | packages/runtime/src/openagent_core/runtime.py:747-755 | A run asked in time never ends in success, whatever follows |
| RunCancellation.PublicationIsExact | packages/runtime/src/openagent_core/runtime.py:747-751 | What is published is what was read: success with the result and the assistant's message, or cancelled and nothing |
| RunCancellation.EndingsAreWritten | packages/runtime/src/openagent_core/runtime.py:752-773 | Failing, a cancellation and the close of the runtime end the run with their status, unless it had ended before, and no other run |
| RunCancellation.LateRequestIsLost | packages/runtime/src/openagent_core/runtime.py:747-751 | The run that shows it: a request recorded between the two steps, and success all the same |
| RuntimeStore.SqliteRuntimeStore.AcceptRun | packages/storage-sqlite/src/openagent_storage_sqlite/__init__.py:171-232 | Acceptance with every branch: duplicate, conflict, reservation, tenant, adopted or created session, parent and root |
| RuntimeStore.SqliteRuntimeStore.TransitionRun | packages/storage-sqlite/src/openagent_storage_sqlite/__init__.py:263-288 | One status transition with its message and outbox intents |
| RuntimeStore.SqliteRuntimeStore.RequestCancelRun | packages/storage-sqlite/src/openagent_storage_sqlite/__init__.py:290-302 | Sets the cancellation intent of an unfinished run once |
| RuntimeStore.SqliteRuntimeStore.ReserveCancelRun | packages/storage-sqlite/src/openagent_storage_sqlite/__init__.py:304-330 | Reserves the cancellation of a run that does not exist yet, for one tenant and session |
| RuntimeStore.SqliteRuntimeStore.BeginInvocation | packages/storage-sqlite/src/openagent_storage_sqlite/__init__.py:337-370 | Commits the intent of a tool call of a running run, once per call id |
| RuntimeStore.SqliteRuntimeStore.FinishInvocation | packages/storage-sqlite/src/openagent_storage_sqlite/__init__.py:372-413 | Finishes an invocation once and updates the message anchored to it |
| RuntimeStore.SqliteRuntimeStore.Recover | packages/storage-sqlite/src/openagent_storage_sqlite/__init__.py:420-426 | Recovery only advances runs; where it gets through, exactly the unfinished runs and tools of the run writer were ended, interrupted and failed with unknown effects, and all other rows are as before; without quarantined sessions it gets through |
| RunAutomaton.RunKeepsFinished | packages/storage-sqlite/src/openagent_storage_sqlite/__init__.py:263-288 | What recovery relies on: over every run of the store, purges included, the run writer's rows are finished exactly when terminal |
| RuntimeStore.SqliteRuntimeStore.AppendMessage | packages/storage-sqlite/src/openagent_storage_sqlite/__init__.py:234-261 | Appends a message and refreshes its session and every tool of the run with their intents |
| RuntimeStore.SqliteRuntimeStore.EnqueueSource | packages/storage-sqlite/src/openagent_storage_sqlite/search.py:18-33 | One upsert intent at the row's current versions; a repetition is ignored |
| RuntimeStore.SqliteRuntimeStore.RefreshTools | packages/storage-sqlite/src/openagent_storage_sqlite/__init__.py:250-254 | The loop over a run's tools gives each a new version and its intent |
| RuntimeStore.SqliteRuntimeStore.NotifyDeletes | packages/storage-sqlite/src/openagent_storage_sqlite/__init__.py:588-593 | The loop over a session's messages leaves one delete notice each and one for the session |
| RuntimeStore.SqliteRuntimeStore.PurgeSession | packages/storage-sqlite/src/openagent_storage_sqlite/__init__.py:579-594 | Purge with its guards, delete notices and cascade |
| RuntimeStore.SqliteRuntimeStore.Create | packages/storage-sqlite/src/openagent_storage_sqlite/__init__.py:536-554 | Creates a session below a readable parent, with the root of the chain |
| RuntimeStore.SqliteRuntimeStore.EditRow | packages/storage-sqlite/src/openagent_storage_sqlite/__init__.py:556-577 | Rename, archive and restore: a new version and its intent |
| RuntimeStore.SqliteRuntimeStore.RestoreSearchIntents | packages/storage-sqlite/src/openagent_storage_sqlite/search.py:36-56 | Startup backfill adds an upsert for every owned row |
| RuntimeEffects.NothingChangesSilently | packages/storage-sqlite/src/openagent_storage_sqlite/__init__.py:234-260 | Whatever a transaction does, an indexed session, message or tool never changes without a strictly newer version and an intent at it, and no intent is lost |
| RuntimeEffects.AcceptanceIsExact | packages/storage-sqlite/src/openagent_storage_sqlite/__init__.py:171-188 | When a request is accepted, repeated, or refused and why; a refusal or repetition changes nothing |
| RuntimeEffects.AcceptanceWrites | packages/storage-sqlite/src/openagent_storage_sqlite/__init__.py:189-232 | The rows of a new run: its own, its session's and the user's message |
| RuntimeEffects.TransitionIsExact | packages/storage-sqlite/src/openagent_storage_sqlite/__init__.py:263-288 | When a transition is made, and what it writes |
| RuntimeEffects.RequestCancelIsExact | packages/storage-sqlite/src/openagent_storage_sqlite/__init__.py:290-302 | Asking an unfinished run to cancel sets its intent; any other call changes nothing |
| RuntimeEffects.ReservationIsExact | packages/storage-sqlite/src/openagent_storage_sqlite/__init__.py:304-329 | A reservation stands for its tenant and session only |
| RuntimeEffects.BeginningIsExact | packages/storage-sqlite/src/openagent_storage_sqlite/__init__.py:336-361 | A tool starts once per call, in a running run, with an open message |
| RuntimeEffects.FinishingIsExact | packages/storage-sqlite/src/openagent_storage_sqlite/__init__.py:372-401 | A tool finishes once, and its message then holds the result or the error |
| RuntimeEffects.EditIsExact | packages/storage-sqlite/src/openagent_storage_sqlite/__init__.py:556-577 | An edit of a found session sets its column, a title within bounds, and its intent is one version newer |
| RuntimeEffects.CreationIsExact | packages/storage-sqlite/src/openagent_storage_sqlite/__init__.py:536-554 | An unused identifier below a session one can find, or below none |
| RuntimeEffects.PurgeIsExact | packages/storage-sqlite/src/openagent_storage_sqlite/__init__.py:579-594 | An archived session is purged when its runs are over and nothing hangs below it |
| RuntimeEffects.PurgeTakesItsRows | packages/storage-sqlite/src/openagent_storage_sqlite/__init__.py:579-594 | A purge takes every row of the session and no other; runs it had delegated lose that parent |
| RuntimeEffects.PurgeTellsExactly | packages/storage-sqlite/src/openagent_storage_sqlite/__init__.py:587-593 | It tells the index to forget the session and each of its messages, one version on, and nothing else |
| RuntimeEffects.TellingIsExact | packages/storage-sqlite/src/openagent_storage_sqlite/__init__.py:234-260 | A message touches its session and enqueues itself, its session and the tools of its run at their versions, and nothing else |
| RuntimeEffects.BackfillIsExact | packages/storage-sqlite/src/openagent_storage_sqlite/search.py:36-56 | At startup every row of the run writer gets an upsert at its versions, and nothing else does |
| SessionLineage.RunKeepsForest | packages/storage-sqlite/src/openagent_storage_sqlite/__init__.py:208-215 | Over every run of the store, session parents are acyclic, roots are the tops of their chains, delegated runs live in child sessions of their parents' sessions, and no reference dangles |
| SessionLineage.EmptyIsForest | packages/storage-sqlite/src/openagent_storage_sqlite/__init__.py:87-106 | A fresh store is such a forest |
| SessionLineage.RootKeyNeverFires | packages/storage-sqlite/src/openagent_storage_sqlite/__init__.py:579-594 | A session without children is nobody's root, so the restricting foreign key never refuses a purge |
| SessionLineage.PurgeOrphansNothing | packages/storage-sqlite/src/openagent_storage_sqlite/__init__.py:579-594 | A purge never forgets a delegated parent of a run that stays |
| SessionLineage.DepthWalk | packages/runtime/src/openagent_core/runtime.py:890-899 | The ancestor walk ends on any table and finds the length and top of the chain exactly when the chain is finite and readable in the tenant |
| SessionLineage.WalkIsDefined | packages/runtime/src/openagent_core/runtime.py:890-899 | In a reachable store every run has such a chain, all in its tenant |
| ParentChains.ChainHasNoCycle | packages/storage-sqlite/src/openagent_storage_sqlite/__init__.py:208-215 | A parent chain never meets an identifier twice |
| SearchOutbox.RunKeepsAgreement | packages/storage-sqlite/src/openagent_storage_sqlite/search.py:18-33 | Every run of store operations keeps an upsert intent for each owned session, message and tool at its current versions, as long as no acceptance adopts history that was never indexed |
| SearchOutbox.StartedStoreAgrees | packages/storage-sqlite/src/openagent_storage_sqlite/search.py:36-56 | Startup establishes the agreement from any rows, and it then lasts |
| SearchOutbox.AcceptIsExact | packages/storage-sqlite/src/openagent_storage_sqlite/__init__.py:203-207 | Acceptance keeps the agreement if and only if it adopts no history that was never indexed |
| SearchOutbox.LegacyAdoptionBreaks | packages/storage-sqlite/src/openagent_storage_sqlite/__init__.py:203-207 | A store in agreement that an acceptance takes out of it |
| SearchOutbox.MessagedAgrees | packages/storage-sqlite/src/openagent_storage_sqlite/__init__.py:234-261 | A message brings its own session and tools up to date |
| SearchOutbox.PurgeNotifies | packages/storage-sqlite/src/openagent_storage_sqlite/__init__.py:587-594 | A purge leaves delete notices for the session and its messages above their last versions |
| SearchOutbox.PurgeNoticesAreExact | packages/storage-sqlite/src/openagent_storage_sqlite/__init__.py:587-594 | A purge leaves a delete notice above the last version for everything of the session if and only if the session has no tool invocations |
| SearchOutbox.ReachablePurgesAreExact | packages/storage-sqlite/src/openagent_storage_sqlite/__init__.py:587-594 | The same for every store that operations lead to |
| SearchOutbox.PurgedToolStaysIndexed | packages/storage-sqlite/src/openagent_storage_sqlite/__init__.py:587-594 | A session whose purge succeeds and leaves its invocation indexed |
| SearchOutbox.RunDeletesNoTool | packages/storage-sqlite/src/openagent_storage_sqlite/search.py:18-56 | No run of store operations ever tells the index that a tool invocation is gone |
| SessionPages.SteadyRowsAreListedOnce | packages/storage-sqlite/src/openagent_storage_sqlite/__init__.py:468-484 | A session that does not move while pages are read is listed exactly once, whatever happens to others in between |
| SessionPages.PagesOfSteadyRows | packages/storage-sqlite/src/openagent_storage_sqlite/__init__.py:468-484 | Over rows that do not change the pages are the sorted list, and end |
| SessionPages.PageIsExact | packages/storage-sqlite/src/openagent_storage_sqlite/__init__.py:473-482 | A page holds the first rows beyond the cursor in order, as many as the limit lets, and there is a next cursor exactly when more lie beyond it |
| HotSwap.DrainCloseIsIdle | packages/runtime/src/openagent_core/runtime.py:544-571 | In drain mode a retired graph is closed only when no run admitted on it executes, then or later |
| HotSwap.ForceCloseIsIdle | packages/runtime/src/openagent_core/runtime.py:562-571 | In force mode the graph is closed after its tasks are over, though leases may be left, and none runs on it later |
| HotSwap.RunKeepsLeased | packages/runtime/src/openagent_core/runtime.py:193-221 | A graph has at least as many leases as live runs |
| HotSwap.SoloClosesAlternate | packages/runtime/src/openagent_core/runtime.py:371-413 | Each component's count equals its multiplicity over what graphs hold, and its start and close strictly alternate, over every interleaving of starts, failures, rollbacks, closes and cancellations, if closes of one graph do not overlap and none begins again after a cancelled one released a part |
| HotSwap.SoloIsExact | packages/runtime/src/openagent_core/runtime.py:423-440 | Those two conditions are exact |
| HotSwap.UncancelledClosesAlternate | packages/runtime/src/openagent_core/runtime.py:423-440 | The second holds when no close is cancelled before it has released everything |
| HotSwap.OverlappingClosesBreak | packages/runtime/src/openagent_core/runtime.py:477-500 | Shutdown during a pending drain closes a component twice |
| HotSwap.RepeatedCloseBreaks | packages/runtime/src/openagent_core/runtime.py:425-431 | A reconfiguration cancelled while it closes the old graph leaves it to a shutdown that closes its components again, with nothing overlapping |
| HotSwap.LeaksAreExact | packages/runtime/src/openagent_core/runtime.py:371-440 | At rest after a run, what is held is exactly the components of the started graphs if and only if in that run no rollback raised before its last component or was cancelled, and no close was cancelled between its first and its last release |
| HotSwap.RaisingRollbackLeaks | packages/runtime/src/openagent_core/runtime.py:396-399 | A run in which a close raises during a rollback and a component stays referenced by no started graph |
| HotSwap.CancelledCloseLoses | packages/runtime/src/openagent_core/runtime.py:425-431 | A run in which a cancelled close leaves a started graph without a reference to its component |
| SwapProgress.LeasesAreExact | packages/runtime/src/openagent_core/runtime.py:193-221 | Over all runs a graph's leases are its live runs and those cancelled before their first instruction |
| SwapProgress.DrainIsExact | packages/runtime/src/openagent_core/runtime.py:561-571 | A drain ends if and only if the runs on the graph are over and none of them was cancelled so early |
| SwapProgress.VanishedRunStallsDrain | packages/runtime/src/openagent_core/runtime.py:774-778 | One that was holds up the drain through every continuation |
| SwapProgress.DrainStalls | packages/runtime/src/openagent_core/runtime.py:802-821 | A run in which nothing is left on the graph and its drain waits all the same |
| SwapProgress.SwapTakesOver | packages/runtime/src/openagent_core/runtime.py:544-561 | From a swap on, until the next, every new run is on the new graph, and the old one is draining and due |
| SwapProgress.CandidatesAreUsedOnce | packages/runtime/src/openagent_core/runtime.py:542-555 | A candidate is activated, swapped in or discarded only once, whatever follows |
| SwapProgress.DrainsOnce | packages/runtime/src/openagent_core/runtime.py:544-571 | A graph that its drain has closed is never due and never active again |
| SwapProgress.ShutdownIsFinal | packages/runtime/src/openagent_core/runtime.py:477-518 | Once a shutdown has begun nothing is admitted or activated any more, however it ends |
| SwapProgress.UndisturbedCloseFinishes | packages/runtime/src/openagent_core/runtime.py:423-440 | A close that runs to its end leaves the graph closed, holding nothing, and no longer retired |
| SharedComponents.StrayReleaseBreaks | packages/runtime/src/openagent_core/runtime.py:401-413 | A release without a reference always closes a component that does not run |
| ModuleGraphs.ReleaseUndoesAcquire | packages/runtime/src/openagent_core/runtime.py:371-440 | Starting components and closing them restores every count, alternating throughout |
| ModuleGraphs.ComponentTable.StartComponents | packages/runtime/src/openagent_core/runtime.py:371-399 | The start loop acquires all components or, when one fails, none |
| ModuleGraphs.ComponentTable.CloseComponents | packages/runtime/src/openagent_core/runtime.py:423-431 | The close loop releases from the last component to the first |
| ModuleGraphs.ComponentTable.Acquire | packages/runtime/src/openagent_core/runtime.py:377-394 | The first reference starts the component, later ones only count |
| ModuleGraphs.ComponentTable.Release | packages/runtime/src/openagent_core/runtime.py:401-413 | The last reference closes it, and so does a release without one |
| ModuleGraphs.ActiveGraph.Acquire | packages/runtime/src/openagent_core/runtime.py:210-214 | A draining graph refuses a lease |
| ModuleGraphs.ActiveGraph.Retire | packages/runtime/src/openagent_core/runtime.py:549-552 | A retired graph without leases is drained at once |
| ModuleGraphs.ActiveGraph.Release | packages/runtime/src/openagent_core/runtime.py:216-221 | Releasing the last lease marks the graph drained |
| ChildScheduling.SomeoneCanProceed | packages/runtime/src/openagent_core/runtime.py:890-920 | Whenever a spawn is in flight, one of them can take its slot, take its place in the chain, or runs with nothing nested to wait for |
| ChildScheduling.ChildrenAreBounded | packages/runtime/src/openagent_core/runtime.py:898-911 | Children past their slot never exceed 2 * child_concurrency + child_max_depth - 2 |
| ChildScheduling.ChainsAreShared | packages/runtime/src/openagent_core/runtime.py:902-920 | The chain map has an entry exactly for keys in use, counts their users, and keeps one live semaphore per key |
| ChildScheduling.GuardsAreExact | packages/runtime/src/openagent_core/runtime.py:884-925 | When a spawn may arrive, get a slot and a place in its chain, and finish |
| ChildScheduling.ArrivingIsExact | packages/runtime/src/openagent_core/runtime.py:900-907 | Where a spawn sits, and that it uses its chain from its arrival on if chains are limited |
| SlotTiers.TotalIsBounded | packages/runtime/src/openagent_core/runtime.py:900-901 | The capacities of all depth tiers together stay below twice the first and the number of tiers |
| SlotTiers.CapacityIsExact | packages/runtime/src/openagent_core/runtime.py:900-901 | A tier has the capacity of the first divided by a power of two, rounded down, and never less than one |
| ChainSlots.ChildSlots.Join | packages/runtime/src/openagent_core/runtime.py:902-907 | Finds or creates the key's semaphore and counts one user more |
| ChainSlots.ChildSlots.Leave | packages/runtime/src/openagent_core/runtime.py:914-920 | Counts one user less and drops the semaphore with the last |
| McpApps.ExecutesAtMostOnce | packages/runtime/src/openagent_core/mcp_apps.py:223-354 | At most one execution is ever created per handle and request id, whatever was evicted |
| McpApps.CountersAreExact | packages/runtime/src/openagent_core/mcp_apps.py:123-150 | Request count, cached bytes and pending tasks equal the sums they stand for and stay within their limits |
| McpApps.ReplayIsTheResult | packages/runtime/src/openagent_core/mcp_apps.py:132-145 | Whatever is replayed for a request is what its one execution returned, over every run |
| McpApps.RepetitionCreatesNothing | packages/runtime/src/openagent_core/mcp_apps.py:239-257 | A known id never creates an execution, and with other arguments changes nothing |
| McpApps.TombstonesStay | packages/runtime/src/openagent_core/mcp_apps.py:239-257 | Until its session is retired a request stays known with its arguments |
| McpAppEffects.NewIdentifierExecutes | packages/runtime/src/openagent_core/mcp_apps.py:258-265 | An identifier that is new to its session gets exactly one execution if there is room, and none otherwise |
| McpAppEffects.KnownIdentifierJoins | packages/runtime/src/openagent_core/mcp_apps.py:239-257 | The same request joins the task while it runs; a different one under its identifier does nothing |
| McpAppEffects.EndingIsExact | packages/runtime/src/openagent_core/mcp_apps.py:306-330 | A task ends once, its record keeps how, and a result that fits is the newest in the cache |
| McpAppEffects.LeavingIsExact | packages/runtime/src/openagent_core/mcp_apps.py:147-150 | The last waiter of a finished task frees its slot; any other frees none |
| McpAppEffects.RetiringIsExact | packages/runtime/src/openagent_core/mcp_apps.py:401-412 | Retiring takes the session, its count and its results; everything else stays |
| McpAppEffects.ShutdownIsFinal | packages/runtime/src/openagent_core/mcp_apps.py:420-424 | After the shutdown nothing is opened, asked or replayed any more |
| ResultCache.EvictionIsMinimal | packages/runtime/src/openagent_core/mcp_apps.py:123-130 | What is evicted is the shortest run of oldest results that makes room |
| ResultCache.RefreshedIsSound | packages/runtime/src/openagent_core/mcp_apps.py:140-145 | Reading a result moves it to the end and leaves the others in their order, with the same entries, bytes and distinct keys |
| McpAppService.AppResults.Remember | packages/runtime/src/openagent_core/mcp_apps.py:123-130 | The eviction loop computes the specified cache with exact byte counts |
| McpAppService.AppResults.Recall | packages/runtime/src/openagent_core/mcp_apps.py:140-145 | Finds a remembered result exactly when there is one and makes it the most recent |
| McpAppService.AppResults.Drop | packages/runtime/src/openagent_core/mcp_apps.py:401-412 | Retiring a session drops exactly its results |
| ModuleResolution.Resolve | packages/runtime/src/openagent_core/modules.py:295-338 | Succeeds exactly when everything selected is installed, met, unambiguous, valid and acyclic, and then lists each module once after everything it depends on |
| ModuleResolution.ResolvedOrderServes | packages/runtime/src/openagent_core/modules.py:302-338 | In the order, each module follows its required modules and the sole provider of each service neither it nor the host binds |
| ModuleResolution.ResolvableIsExact | packages/runtime/src/openagent_core/modules.py:295-338 | A profile can be resolved if and only if all it selects is installed, with required modules, surfaces and valid configuration, every needed service has the host or exactly one selected module for it, and no chain of dependencies closes |
| ModuleResolution.DependenciesAreExact | packages/runtime/src/openagent_core/modules.py:295-338 | What a module comes after |
| ModuleResolution.Examine | packages/runtime/src/openagent_core/modules.py:302-333 | The checks of one module pass exactly when it is met, and yield its dependencies |
| ModuleResolution.CollectProviders | packages/runtime/src/openagent_core/modules.py:298-301 | The table lists each service's providers once |
| ModuleResolution.SelfRequirementIsRefused | packages/runtime/src/openagent_core/modules.py:323-337 | A module that requires itself is refused |
| DependencyOrder.StaticOrder | packages/runtime/src/openagent_core/modules.py:334-337 | Layered ordering finds an order exactly when no walk along dependencies closes |
| DependencyOrder.OrderedIsAcyclic | packages/runtime/src/openagent_core/modules.py:334-337 | An order excludes every cycle |
| FenceSplitter.SplitPreserves | packages/runtime/src/openagent_core/media.py:231-267 | For text longer than a positive limit: every chunk has an even number of fences, is not blank and at most max(max_len, max_len/2+4)+4 long; without inserted fences and white space the chunks are the text |
| FenceSplitter.SplitPreservingCodeBlocks | packages/runtime/src/openagent_core/media.py:231-267 | The loop with its carry computes the specified chunks and ends for every limit |
| FenceSplitter.OpenNeedsRoom | packages/runtime/src/openagent_core/media.py:242-259 | An open carry is unreachable for limits below three |
| FenceSplitter.LimitIsExact | packages/runtime/src/openagent_core/media.py:231-232 | The documented limit holds for all texts if and only if it is below three |
| FenceSplitter.FirstChunkOverflows | packages/runtime/src/openagent_core/media.py:242-262 | From three on, a fence and as many letters as the limit make a first chunk of four characters more than the limit |
| FenceSplitter.FenceFreeTextFits | packages/runtime/src/openagent_core/media.py:231-267 | Text without fences never yields a chunk over the limit |
| FenceSplitter.LongestIsReached | packages/runtime/src/openagent_core/media.py:231-267 | A chunk of nine characters in the split of a text for a limit of three, which is the bound |
| FenceSplitter.FindCut | packages/runtime/src/openagent_core/media.py:243-252 | A piece ends at the last newline, else the last space, past the first quarter of its budget |
| FenceSplitter.CutIsExact | packages/runtime/src/openagent_core/media.py:243-252 | A stretch ends where the text does, else at the last newline past the first quarter of the budget, else at the last such space, else when the budget is used up |

## Left out

- SQLite, WAL, checkpoints, files and process locks: a transaction is one atomic step that an exception rolls back; the unique and foreign keys the code relies on are modelled where they matter.
- SHA-256, encryption, UUIDs and random tokens: digests and ciphertexts are opaque, and new identifiers are fresh.
- Clocks are parameters, monotone where a result needs it; the privacy transactions that read the clock twice take both readings. A transaction that waits for a lock with an older reading of the clock is not distinguished from one that reads it late.
- Authorizers, delegation checks, quarantine policy and the sinks' own storage: arbitrary answers at the points where the code asks; a sink answers complete or conflict.
- Size limits of constructors (lengths of names, numbers of origins, parents, fragments and path components) apart from those a result depends on.
- JSON: number spelling is kept as written, lone surrogates and `NaN` literals are not text of the model, and the recursion limit of the reader is not modelled.
- The order in which SQL returns rows without `ORDER BY`, and the order of modules within a layer: loops pick any element.
- Domain events, ordinals and message sequence numbers of the run store, and the full-text search of sessions.
- Terminal events, owned resources and provider notifications of the capability host; the release of principals is a state machine over its segments, without a class of its own.
- The consent barrier is that of one host process: calls of other processes that share the consent record are not awaited by the code and are not in that model, nor is a cancellation of provider tasks from outside the host.
- Effects that outlive a crashed host process, for instance in a server that keeps running.
- Whether a call may be retried is a fixed property of its fingerprint; the manifest that classifies it is not modelled.
- The first module graph becomes active here once its components are started; the code makes it active earlier but admits nothing until then.
- Per-session run locks in child scheduling, and fairness of semaphores.
- Module migrations, contributions and capability registration during a hot swap; generations are distinct.
- App model context, prompt rendering and opening data of MCP apps; provider calls answer anything.
- Engine-specific field walks, legacy adoption and offline migration; legacy rows appear only as sessions and runs the run writer does not own.
- AtMostOnce.DisciplinedKeysDispatchOnce: for keys not shared by safe and unsafe calls only, because the code does not keep the promise for shared ones (see `AtMostOnce.DisciplineIsExact`).
- Fragments.ErasureIsLocal: for paths that enter strings only at boundaries, which `FragmentLocality.LocalityIsExact` shows to be exact, and for strings that stay within the size bound after re-encoding, because the code does not keep the promise beyond them (see `Fragments.ReplacedFragmentReads`).
- ExportSpool.EncryptedPrivacyExports.Download: one download without interruption; `PrivacyDownloads` takes it apart and interleaves it, without the actor's and sources' authorization.
- FenceSplitter.SplitPreserves: the proved bound in place of the documented limit, because the code does not keep that limit (see `FenceSplitter.LimitIsExact`).
- ConsentProtocol.DisciplinedBarriersHold: under the three conditions that `ConsentProtocol.BarrierIsExact` shows to be exact, because the code does not keep the barrier without them.
- HotSwap.SoloClosesAlternate: for closes that do not overlap on one graph or begin again after a cancelled one, because the code lets a shutdown do both (see `HotSwap.SoloIsExact`).
- PrincipalRelease.DisciplinedReleasesAreCareful: under the five conditions that `PrincipalRelease.CarefulIsExact` shows to be exact, because the code unlocks the machine without them.
- PrincipalRelease.DoubtKeepsTheLease: for releases by the host that noted the doubt, because the code forgets it elsewhere (see `PrincipalRelease.OrphanIsExact`).
- SearchOutbox.RunKeepsAgreement: without the adoption of unindexed history, because the code breaks the agreement there (see `SearchOutbox.AcceptIsExact`).
- RunService.StartsAtMostOnce: for runs of the service in which no session is purged, since a purge forgets the run identifier.
