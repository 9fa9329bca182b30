# OpaqueDrop: a verified model of the encrypted drop protocol

OpaqueDrop lets people send files to a recipient through a server that never holds the key: the browser encrypts a
file chunk by chunk, the server stores the ciphertext under a quota and hands out a receipt, the recipient's
collector downloads, decrypts, verifies and publishes the file, and only then acknowledges it, whereupon the server
may delete it. This project models that protocol and proves what it promises.

| files | what they model |
|---|---|
| `Prelude`, `Text`, `Base64`, `Model` | decimal, hexadecimal, UTF-8, base64url as Go decodes it; the records; the cryptographic and JSON primitives as a parameter |
| `Cryptobox`, `Chunks` | canonical header, nonces, associated data, receipt root, the opener; chunk arithmetic |
| `StoreSpec`, `StoreServer` | the server store: what each operation does as a plan of atomic file-system steps, and the class whose methods take those steps |
| `StoreInvariant`, `StoreRuns`, `StoreTheorems` | every interleaving of the store's operations, with crashes and I/O errors between any two steps, and what holds throughout |
| `Outcomes`, `Capabilities`, `Admission` | what each request to the store achieves on the disk, refusals included; which token opens what; what the server accepts the recipient can open |
| `Lifetimes` | over whole runs: nothing begins after expiry, and what is completed stays where nobody asks for deletion |
| `StoreLimits`, `StoreScenarios` | exactly when stored chunks fit their manifests and when the quota sees every upload, and runs in which they do not |
| `Filename`, `OrdinaryNames`, `Publish` | names for received files, what is kept of the sender's name, truncation, collision suffixes |
| `Retry`, `Waiting`, `Collector`, `CollectorClient` | the recipient: bounded reads, waiting, selection, verification, publication, batches |
| `Browser`, `EndToEnd`, `Uploader` | the sender: sealing, the whole way of a file, and the upload over a network that loses requests |
| `Delivery`, `Assurance`, `Reuse`, `Acknowledging` | store and collectors together with delete-after-collect, what a receipt means in the end, what a reused upload id does, and exactly when an acknowledgement removes what its collector saved |
| `Limiter`, `LimiterRuns`, `LimiterOverflow` | the limiter of failed authorizations and `authorize` |

**How the store is modelled.** `StoreSpec` gives each operation as a function from the disk to a plan: the list of
atomic steps (create a file, rename, remove a directory) in the order of the source, and the result. `StoreServer.Store`
is the store itself, a class with the disk as its field and the source's loops; each method is proved to carry out its
plan. A crash leaves the disk after some prefix of the steps. `StoreRuns` lets the operations of any number of handlers
interleave: the unlocked reads (authentication, the manifest read of PutChunk) are moves of their own, so what a handler
learnt may be stale when it gets the lock. `StoreInvariant.Inv` holds in every state of every such run.

**Cryptography.** SHA-256, AES-GCM, ECDH, HKDF and JSON decoding are the fields of a record `Primitives`, a parameter of
everything. `Model.Lawful` lists what is assumed of them (lengths, opening what was sealed, agreement of key exchange),
and `Model.ToyIsLawful` shows the assumptions consistent. Nothing assumes that SHA-256 has no collisions: where a hash
carries the argument the conclusion is "equal, or here is the collision".

**Main results.** `StoreRuns.RunKeepsInv` (the invariant), `StoreTheorems.CompletedUpload`, `QuotaHolds`,
`ClosureBarrier`, `CloseRecovers`, `StoreLimits.ChunksFitExactly`, `UnreservedExactly`, `Cryptobox.HeaderRoundTrip`,
`AADInjective`, `ReceiptBinding`, `EndToEnd.EndToEnd` (sealing, storing and collecting any file gives back that file),
`Uploader.Page.UploadFile` and `ReceiptProvesStorage`, `Delivery.NothingIsLost`, `Assurance.ReceiptMeansSafe`,
`Reuse.ReusedIdIsLost`, `Acknowledging.RemovesItsOwnExactly`, `TestedLosesNothing`, `Lifetimes.ReservedInTime`,
`CollectedAndKept`, `Admission.StoredOpens`, `OrdinaryNames.CleanExactly`, `Filename.PortableExactly`,
`LimiterRuns.FailuresAreLimited`, `LimiterOverflow.OverflowExactly`.

**Where the code differs from what one might expect.** Each point has a run or an input that shows it and a theorem
that says exactly when it does not arise.

- Closing again returns the first closure (docs/PROTOCOL.md line 128), except exactly when the id was meanwhile imported
  again beside its closed bundle; then it is a conflict (`StoreTheorems.ClosingAgain`,
  `StoreScenarios.ClosingAgainConflicts`).
- Completing again returns the same receipt (docs/PROTOCOL.md line 136) only until the request is closed, and while the
  upload exists. `StoreTheorems.SameReceipt` states when.
- A crash in the middle of a setup leaves a manifest without `server.json`; such an upload is not counted by the quota,
  and can be completed all the same (`StoreScenarios.UncountedCompletion`). Exactly these uploads escape
  (`StoreLimits.UnreservedExactly`); where no crash cuts a setup short the quota bounds all of them
  (`StoreLimits.QuotaBoundsAll`).
- PutChunk checks the length against a manifest it read before taking the lock. After a removal and a new setup under
  the same id a chunk of the wrong length can be stored (`StoreScenarios.StaleTicketIsReal`), and then the upload can
  never be completed until it is removed (`StoreTheorems.StaleTicketWedges`). All chunks fit exactly if none is stored
  with a length read from a manifest that is gone (`StoreLimits.ChunksFitExactly`), hence always for an upload that is
  never removed (`StoreLimits.ChunksFitUntilRemoved`).
- An acknowledgement deletes whatever is stored under the upload id. One reused id is enough to lose a file
  (`Reuse.ReusedIdIsLost`). In any history whatever, what an acknowledgement would remove is what its collector read and
  saved (or comparing the two finds a collision) exactly if the stored receipt root is the listed one
  (`Acknowledging.RemovesItsOwnExactly`). Where that holds of every acknowledgement nothing is lost even if ids are used
  again (`Acknowledging.TestedLosesNothing`), and with fresh ids it always holds (`Acknowledging.HonestIsTested`,
  `Delivery.NothingIsLost`).
- Filenames are trimmed and checked for device names before they are truncated, so truncation can bring a trailing space
  or a device name back (`Filename.LongNamesMayBeUnportable`). `Filename.PortableExactly` says for which names.
- The overflow bucket of the limiter can count more than twelve failures, even without overlapping authorizations
  (`LimiterOverflow.OverflowCanExceed`). It stays within twelve exactly if every failure charged to it comes while the
  limiter, asked again, would let the address pass (`LimiterOverflow.OverflowExactly`).

`hide` statements in proofs only keep definitions away from the solver.

## Model

| member | source | states |
|---|---|---|
| Base64.RoundTrip | internal/server/web/app.js:226 | decoding the browser's unpadded base64url gives back exactly the bytes encoded |
| Base64.DecodableField | internal/cryptobox/cryptobox.go:60-83 | a string the decoder accepts consists of base64url symbols, carriage returns and line feeds only, so it holds no '=' |
| Base64.LineBreaksAreSkipped | internal/cryptobox/cryptobox.go:60-83 | line breaks anywhere in a base64url text make no difference to what it decodes to |
| Base64.SpareBitsAreIgnored | internal/cryptobox/cryptobox.go:60-83 | the bits left over in a last group are not looked at |
| Text.HexRoundTrip | internal/cryptobox/cryptobox.go:141-144 | hexadecimal digests decode back to their bytes |
| Text.FoldedHexDecodes | internal/store/store.go:754-786 | a header hash equal up to case to the computed one decodes to the same digest |
| Text.Utf8Injective | internal/store/store.go:261 | different texts have different UTF-8 bytes, so different tokens are hashed from different bytes |
| Model.ToyIsLawful | internal/cryptobox/cryptobox.go:30-88 | the assumptions about the primitives are consistent: an instance meets them all |
| Cryptobox.HeaderRoundTrip | internal/cryptobox/cryptobox.go:136-139 | a parser recovers all ten fields from the canonical header of every accepted header, newlines inside base64 fields included |
| Cryptobox.HeaderInjective | internal/cryptobox/cryptobox.go:136-139 | two accepted headers with the same canonical text are equal |
| Cryptobox.HeaderBinding | internal/cryptobox/cryptobox.go:141-144 | two accepted headers with the same hash are equal or their canonical texts collide under SHA-256 |
| Cryptobox.MakeNonce | internal/cryptobox/cryptobox.go:117-122 | the buffer filled in place is the eight prefix bytes and the index in big-endian order |
| Cryptobox.NonceInjective | internal/cryptobox/cryptobox.go:117-122 | under one prefix different indices give different nonces |
| Cryptobox.NoncesDistinct | internal/store/store.go:765-767 | for every accepted chunk count the nonces of all chunks and of the metadata are pairwise distinct |
| Cryptobox.AADInjective | internal/cryptobox/cryptobox.go:128-134 | associated data determines request, upload, header hash, kind and index |
| Cryptobox.ComputeReceiptRoot | internal/cryptobox/cryptobox.go:146-155 | feeding the hasher piece by piece computes the hash of prefix, manifest hash and digests concatenated |
| Cryptobox.BlocksInjective | internal/cryptobox/cryptobox.go:146-155 | a concatenation of 32-byte digests decodes uniquely |
| Cryptobox.ReceiptBinding | internal/cryptobox/cryptobox.go:146-155 | equal receipt roots mean equal manifests and equal ordered chunk lists, or a computed pair of inputs is a SHA-256 collision |
| Chunks.CountIsCeiling | internal/server/web/app.js:108 | the server's chunk count is the only n >= 1 with n chunks enough and n - 1 too few, that is max(1, ceil(size / chunk)) |
| Chunks.ChunkLengths | internal/store/store.go:788-794 | every chunk but the last is full, the last holds 1 to chunk-size bytes, and 0 only for the empty file |
| Chunks.NoOverflow | internal/store/store.go:754-794 | no intermediate value of the chunk arithmetic leaves 64 bits on an accepted manifest |
| Chunks.CipherTotalExact | internal/store/store.go:508-525 | the expected chunk sizes add up to the file size plus 16 bytes a chunk |
| Chunks.SlicesAreTheFile | internal/server/web/app.js:143-144 | the browser's slices are exactly as long as the server expects and together are the file |
| StoreServer.Store.ImportRequest | internal/store/store.go:98-114 | refuses an invalid or existing bundle, and otherwise only writes it |
| StoreServer.Store.CloseRequest | internal/store/store.go:168-228 | writes the marker, then moves the bundle, in this order; every error leaves the disk as it was |
| StoreServer.Store.Usage | internal/store/store.go:660-685 | counts exactly the uploads of the request with a server.json and adds up their plain sizes |
| StoreServer.Store.BeginUpload | internal/store/store.go:280-404 | checks, then either an exact replay that changes nothing, a quota refusal, or the four setup steps in order |
| StoreServer.Store.Setup | internal/store/store.go:373-402 | directory, chunks directory, manifest and server.json are made in this order |
| StoreServer.Store.PutCommit | internal/store/store.go:424-462 | under the lock a chunk is stored only if the request is open, the chunk is new and its length is the one read before |
| StoreServer.Store.PutChunk | internal/store/store.go:412-462 | an uninterrupted PutChunk is its unlocked read followed by its locked part |
| StoreServer.Store.Gather | internal/store/store.go:508-525 | finds every chunk of the exact length or gives up, and otherwise returns all digests in order and the total length |
| StoreServer.Store.Complete | internal/store/store.go:491-541 | returns an existing receipt, refuses missing or wrong chunks, or writes the receipt for the stored manifest and chunks |
| StoreServer.Store.Acknowledge | internal/store/store.go:600-618 | marks a completed upload once and removes it when the request says so |
| StoreServer.Store.Purge | internal/store/store.go:620-658 | reports the same set whether or not it applies, and removes exactly the reported uploads when it does |
| Outcomes.ImportStoresOnce | internal/store/store.go:98-114 | a valid bundle is stored unless an active one has its id, which is a conflict and leaves that one as it is |
| Outcomes.ExpiredIsRefused | internal/store/store.go:301-307 | no setup succeeds for an expired request, fresh id or replay, none writes anything, and a valid one for an open request is told that it has expired |
| Outcomes.FreshSetup | internal/store/store.go:280-402 | a due setup under a new id reserves exactly one upload with the bytes sent, used files and bytes growing by one and its size, if that stays within the quota; otherwise it is refused for quota and the disk is as before |
| Outcomes.TakenSetup | internal/store/store.go:321-361 | under a taken id nothing is written, and only a complete reservation with the same bytes is confirmed |
| Outcomes.CommitExactly | internal/store/store.go:424-462 | a chunk of the expected length is added to an open upload and nothing else changes; a chunk once stored, another length and a closed request are refused, each with its own error, and the disk is as before |
| Outcomes.CompletionExactly | internal/store/store.go:491-541 | a first completion writes a receipt for this upload, stamped with the time, exactly if every chunk is there in its length, and is a conflict otherwise |
| Outcomes.CompletedIsServed | internal/store/store.go:577-598 | of a completed upload exactly the manifest's chunks are served, as they are stored |
| Outcomes.AcknowledgeExactly | internal/store/store.go:600-618 | an acknowledgement marks a completed upload, an earlier mark standing, and keeps manifest, chunks and receipt unless the request asks for deletion; then it removes the upload; all else is unchanged, and an incomplete upload is not found |
| Outcomes.CloseExactly | internal/store/store.go:168-228 | a first closure moves exactly the bundle and records the time; closed and imported again is a conflict, unknown is not found, both without a trace |
| Outcomes.ClosedRefusesSubmitters | internal/store/store.go:201-226 | once the marker stands setup, chunks, digests and completion are all answered as closed and write nothing |
| Outcomes.PurgeSparesYoung | internal/store/store.go:641-645 | a reserved upload of an unexpired request is not purged up to the stale age, nor ever once it is completed |
| Outcomes.PurgeTakesOld | internal/store/store.go:641-645 | every upload of an expired request, every one without server.json and every incomplete one beyond the stale age is purged |
| Capabilities.CapabilitiesAreSeparate | internal/store/store.go:248-263 | where a request's two hashes differ, no token is accepted both for submitting and for collecting |
| Capabilities.OpenRequestTokens | internal/store/store.go:248-263 | in every reachable state and until the closure a token is accepted for submitting exactly if it is a nonempty preimage of the submit hash first imported, and for collecting exactly so with the collect hash |
| Admission.AcceptedOpens | internal/store/store.go:754-786 | every manifest the server accepts passes all checks of the recipient's opener |
| Admission.CapitalsAreAccepted | internal/store/store.go:754-786 | the recorded header hash may as well be in capitals |
| Admission.StoredOpens | internal/store/store.go:280-335 | in every reachable state each stored manifest is within the collector's read limit and can be opened with the request's key |
| Admission.HashFixesHeader | internal/cryptobox/cryptobox.go:30-48 | two openable manifests that record one header hash have equal headers, or their canonical texts collide under SHA-256 |
| Admission.KDFInfoInjective | internal/cryptobox/cryptobox.go:124-126 | the key derivation info determines request and upload |
| Lifetimes.NothingBegunLate | internal/store/store.go:305-307 | whatever becomes of the operation, no upload directory is made once the request has expired |
| Lifetimes.ReservedInTime | internal/store/store.go:305-402 | in every run each reservation was made before its request, as first imported, expired, and each stored manifest is nonempty and within what a collector reads |
| Lifetimes.KeptWithoutDeletion | internal/store/store.go:614-617 | in every run without a purge of it or an acknowledgement that asks for deletion a completed upload keeps manifest, receipt and chunks, however often it is acknowledged |
| Lifetimes.CollectedAndKept | internal/store/store.go:614-617 | the same with any number of collectors at work |
| StoreInvariant.StepKeepsInv | internal/store/store.go:280-541 | every legal file-system step keeps the whole invariant: bundles and markers, receipts, reservations, quota |
| StoreInvariant.PrefixKeepsInv | internal/store/store.go:373-402 | so does every prefix of an operation's steps, where a crash may stop it |
| StoreInvariant.UsageGrows | internal/store/store.go:660-685 | writing server.json adds one file and its plain size to the usage |
| StoreInvariant.UsageShrinks | internal/store/store.go:660-685 | removing a counted upload takes back one file and its plain size |
| StoreRuns.PlanIsLegal | internal/store/store.go:98-658 | every operation, with whatever its handler read earlier, takes only legal steps in every state with the invariant |
| StoreRuns.MoveKeepsInv | internal/store/store.go:98-658 | the invariant survives every operation, finished, crashed or failed at any step |
| StoreRuns.RunKeepsInv | internal/store/store.go:98-658 | the invariant holds after every run of interleaved operations |
| StoreTheorems.CompletedUpload | internal/store/store.go:491-541 | in every reachable state a receipt stands for the stored manifest and for chunks 0 to n-1 of exactly the expected lengths; its root is theirs and its byte count the file plus 16 a chunk |
| StoreTheorems.ReceiptStays | internal/store/store.go:412-541 | no sequence of legal steps without a removal changes a completed upload's manifest, receipt or chunks |
| StoreTheorems.SubmissionStays | internal/store/store.go:412-541 | in every run that does not remove it a completed upload keeps manifest, receipt and chunks |
| StoreTheorems.SameReceipt | internal/store/store.go:494-507 | completing again in any later state returns the same receipt, or Closed once the request is closed |
| StoreTheorems.StaleTicketWedges | internal/store/store.go:412-462 | a chunk stored with a stale length makes every later completion fail, in every run, until the upload is removed |
| StoreScenarios.StaleTicketIsReal | internal/store/store.go:412-462 | a run from the empty store, for any two files of different chunk length the server accepts under one id: the first is sent and completed, a chunk request reads its manifest, an acknowledgement removes it, the id is set up for the second, the request stores its chunk; the upload holds a chunk its manifest does not allow |
| StoreScenarios.SuchFilesExist | internal/server/web/app.js:106-138 | there are a request and two such files, sealed as the page seals them |
| StoreLimits.ChunksFitUntilRemoved | internal/store/store.go:412-462 | in every run that never removes the upload, every stored chunk and every length a handler holds is exactly what the stored manifest says |
| StoreLimits.ChunksFitExactly | internal/store/store.go:412-462 | in every run all stored chunks fit at all times exactly if no chunk is stored with a length read from a manifest that is gone |
| StoreTheorems.QuotaHolds | internal/store/store.go:365-371 | in every reachable state the counted uploads of a request number at most MaxFiles and sum to at most MaxBytes <= 2^50 |
| StoreLimits.UnreservedExactly | internal/store/store.go:373-402 | an upload on disk is without server.json exactly if a crash cut its setup short and it was not removed since |
| StoreLimits.QuotaBoundsAll | internal/store/store.go:660-685 | in every run where no crash cuts a setup short every upload has its server.json, so all uploads of a request stay within MaxFiles and MaxBytes |
| StoreScenarios.UncountedCompletion | internal/store/store.go:373-402 | a run from the empty store in which a crashed setup is filled and completed while the quota counts nothing |
| StoreTheorems.ReplayIffSameBytes | internal/store/store.go:335-361 | a setup for an existing reservation changes nothing and succeeds exactly if the manifest bytes are the same |
| StoreTheorems.ClosureBarrier | internal/store/store.go:201-226 | after the marker, in every later run, no upload, chunk or receipt is added to the request and the marker stays, even after a new import |
| StoreTheorems.ClosingAgain | internal/store/store.go:168-228 | closing again in any later state returns the first closure, or a conflict exactly when active and closed bundle both exist |
| StoreScenarios.ClosingAgainConflicts | internal/store/store.go:168-200 | import, close and import again: closing is then a conflict although the first closure stands |
| StoreTheorems.ClosingAgainAlways | internal/store/store.go:168-228 | without a new import of the id closing again always returns the first closure |
| StoreTheorems.CloseCompletes | internal/store/store.go:201-226 | a close that runs to its end leaves the bundle moved and the marker it returned in place |
| StoreTheorems.CloseRepeats | internal/store/store.go:201-226 | after any prefix of its steps a close can be repeated with the same closure if the marker was written |
| StoreTheorems.CloseRecovers | internal/store/store.go:201-226 | from every crash point a repeated close ends with the bundle moved and the marker in place, and a closed bundle always has its marker |
| StoreTheorems.LookupAlwaysFinds | internal/store/store.go:123-129 | the two-step lookup finds every imported request, whatever runs between its reads |
| StoreTheorems.PurgeSparesSubmissions | internal/store/store.go:620-658 | a purge never removes a completed upload of a known, unexpired request, open or closed, with a server.json |
| StoreTheorems.PurgeReturnsQuota | internal/store/store.go:620-685 | a purge lowers the usage by exactly the removed counted reservations |
| Filename.TruncateIsLongest | internal/core/core.go:165-183 | the result is the longest prefix of whole characters within both budgets |
| Filename.TruncateUnits | internal/core/core.go:165-183 | the loop computes that prefix |
| Filename.Utf16Units | internal/core/core.go:185-194 | the loop counts two units for each character beyond U+FFFF and one for every other |
| Filename.TruncateComponentIsSafe | internal/core/core.go:151-163 | truncation keeps a name a safe visible component, within 240 bytes and 240 UTF-16 units |
| Filename.KeptExactlyIfShort | internal/core/core.go:151-163 | a name is left alone exactly if its extension is within 40 and the whole within 240 bytes and units |
| Filename.CleanIsSafe | internal/core/core.go:114-126 | cleaning leaves a nonempty name without separators or forbidden characters that does not start with a dot |
| Filename.CleanIsPortable | internal/core/core.go:114-149 | before truncation a name ends in neither space nor dot and is no Windows device name |
| Filename.SafeFilenameIsSafe | internal/core/core.go:114-126 | every name used is safe and within the budgets, whatever the sender wrote |
| Filename.PortableExactly | internal/core/core.go:114-163 | a final name is without trailing space or dot and no device name exactly if the clean name is within the budgets, or its cut neither falls behind a space nor shortens the stem to a device name and spaces |
| Filename.LongNamesMayBeUnportable | internal/core/core.go:118-125 | for a whole family of longer names truncation brings back a trailing space and a device name |
| OrdinaryNames.OrdinaryIsKept | internal/core/core.go:114-126 | an ordinary name is kept letter by letter, also behind a path in either style: a component within the budgets without forbidden characters that is no device name |
| OrdinaryNames.ForbiddenAreReplaced | internal/core/core.go:114-126 | forbidden characters become underscores where they stand, and every other character stays |
| OrdinaryNames.DirectoriesAreDropped | internal/core/core.go:114-126 | directories in front of a name make no difference |
| OrdinaryNames.ReservedExactly | internal/core/core.go:128-149 | the reserved words are the 28 device names, in any case |
| OrdinaryNames.DevicesAreMarked | internal/core/core.go:114-149 | a device name, with or without an extension, gets an underscore in front and is otherwise kept |
| OrdinaryNames.CleanExactly | internal/core/core.go:114-126 | every name becomes the core of its last path component, with underscores for forbidden characters, marked if it is a device name, or the fallback if that core is empty |
| OrdinaryNames.BaseExactly | internal/core/core.go:114-126 | the last component is what stands between the last slashes |
| OrdinaryNames.FinalFallback | internal/core/core.go:114-126 | a file is named by the fallback exactly if its last component holds nothing but dots and spaces, or is that name itself |
| OrdinaryNames.TruncationKeepsMost | internal/core/core.go:151-163 | truncation keeps beginnings of stem and extension within the budgets, and one character more of either would exceed them |
| Publish.CandidatesDiffer | internal/collector/collector.go:742-764 | the name and all its numbered variants are pairwise distinct |
| Publish.CandidateIsSafe | internal/collector/collector.go:742-764 | a numbered variant stays safe and grows by at most six bytes and units |
| Publish.EveryCandidateFits | internal/collector/collector.go:742-764 | every name tried is one visible component of at most 246 bytes and UTF-16 units |
| Publish.DestinationIsFree | internal/collector/collector.go:742-764 | the name chosen is a candidate not in the directory; running out of names means all of them are taken |
| Publish.DestinationIsFirst | internal/collector/collector.go:742-764 | the name chosen, or the one whose link fails, is the first candidate that is not taken |
| Publish.CandidateKeepsEnds | internal/collector/collector.go:742-764 | numbered variants begin like the name and keep its extension |
| Publish.RoomEnough | internal/collector/collector.go:742-764 | in a directory with fewer than 10,000 entries publication succeeds unless linking itself fails |
| Publish.HiddenNamesDoNotMatter | internal/collector/collector.go:353-358 | temporary names, which start with a dot, never stand in the way of a candidate |
| Retry.RunYields | internal/collector/collector.go:463-503 | a read succeeds exactly if some allowed attempt does and every one before it failed in a retryable way with a bearable Retry-After |
| Retry.RetryDelay | internal/collector/collector.go:533-552 | the loop computes the doubling delay, cut off at the maximum |
| Retry.DelayGrows | internal/collector/collector.go:533-552 | delays never shrink and never exceed the maximum |
| Retry.DelayExactly | internal/collector/collector.go:533-552 | after n doublings the pause is base times 2^n within the maximum, or the maximum where that is one below an odd one |
| Retry.BytesRequest | internal/collector/collector.go:463-531 | the read loop returns what the attempts yield, refuses oversized bodies, and after each failed attempt pauses exactly the grown delay or the longer Retry-After, within the maximum |
| Retry.FetchedExactly | internal/collector/collector.go:463-531 | a read brings back a body exactly if one of at most eleven attempts delivers it within the limit after failures worth repeating; a body beyond the limit ends the read |
| Waiting.ReceiptListReady | internal/collector/collector.go:172-189 | true exactly if every requested id is listed, or without ids some receipt qualifies |
| Waiting.SelectReceipts | internal/collector/collector.go:291-326 | the loops select by id in request order without repetition, or all unacknowledged receipts |
| Waiting.PendingPlaces | internal/collector/collector.go:292-299 | without ids the selection is exactly the unacknowledged receipts, each where it stands in the list, none left out |
| Waiting.PendingCounts | internal/collector/collector.go:292-299 | each of them as often as it is listed |
| Waiting.SelectedInOrder | internal/collector/collector.go:300-326 | requested ids are selected, and those that cannot be are reported for their own reason, each once and in request order |
| Waiting.SelectionAccounts | internal/collector/collector.go:291-326 | every distinct requested id is selected exactly if it is valid and listed, and reported exactly otherwise |
| Waiting.ReadyAgreesWithSelection | internal/collector/collector.go:172-189 | on a ready list each distinct requested id is selected once in request order without failures, and without ids something is selected |
| Waiting.WaitForReceipts | internal/collector/collector.go:117-160 | exactly how a wait ends: wrong arguments are refused unasked, without a timeout the first list counts, otherwise the first failure, ready list or passed deadline decides; it polls at most ceil(timeout / interval) + 1 times and sleeps at most the timeout in all |
| Waiting.WaitIsDetermined | internal/collector/collector.go:117-160 | that fixes the outcome and the number of polls |
| Collector.CheckedIsVerified | internal/collector/collector.go:344-461 | a submission passes only if every chunk arrived and opened at its own index with a fitting size, the sizes sum up and the receipt matches |
| Collector.AcceptedPieces | internal/collector/collector.go:363-395 | what is accepted is the chunks, each opened at its own index, all but the last of the chunk size and together of the announced size |
| Collector.CheckedExactly | internal/collector/collector.go:344-461 | a submission is ready for publication exactly if its receipt is for this request, everything served verifies and nothing goes wrong locally |
| Collector.AllOrNothing | internal/collector/collector.go:396-433 | a file appears only after full verification, with the verified plaintext, under a free name; any earlier failure leaves the directory alone |
| CollectorClient.Client.Download | internal/collector/collector.go:363-395 | the loop over the chunks appends exactly the plaintexts to the temporary file and stops at the first thing wrong |
| CollectorClient.Client.PublishOutput | internal/collector/collector.go:742-764 | links the temporary file under the first free candidate, changing no existing entry, or changes nothing |
| CollectorClient.Client.CollectOne | internal/collector/collector.go:344-434 | saves as specified, removes the temporary file, and acknowledges at most once and only after publication, under a safe name |
| CollectorClient.Client.CollectEach | internal/collector/collector.go:268-281 | the loop treats the submissions one after the other, stops only where the source does, and acknowledges exactly the saved ones in order |
| CollectorClient.Client.Collect | internal/collector/collector.go:255-282 | the wait ends as specified; a failed one changes nothing; otherwise exactly the selection is tried, with fail-fast nothing at all if some requested id cannot be selected, and without ids, undisturbed, every unacknowledged receipt of the list has its result |
| CollectorClient.BatchIsolation | internal/collector/collector.go:255-282 | without fail-fast, cancellation or output trouble every submission is attempted and saved exactly if it verifies, whatever happens to the others |
| CollectorClient.BatchEndsExactly | internal/collector/collector.go:268-281 | a batch ends early exactly at the first failure with fail-fast, or else at the first output trouble or cancellation |
| CollectorClient.EveryPendingHasResult | internal/collector/collector.go:255-282 | collecting without ids leaves out no unacknowledged submission of the list, and each is treated on its own merits |
| Browser.ManifestIsValid | internal/server/web/app.js:106-138 | the server accepts every manifest the browser builds for a sendable file |
| Browser.ChunkLengthsMatch | internal/server/web/app.js:142-146 | every ciphertext chunk is exactly as long as the server expects and within the collector's read limit |
| Browser.OpenerAgrees | internal/cryptobox/cryptobox.go:30-88 | the recipient derives the browser's file key, nonce prefix and header hash |
| Browser.PlaintextIsSlices | internal/collector/collector.go:363-395 | every sealed chunk opens at its own index, and the plaintexts are the file's slices in order |
| Browser.RoundTrip | internal/server/web/app.js:106-155 | for every file the manifest is accepted and the plaintext accepted by the collector is exactly the file |
| EndToEnd.PutAllStores | internal/store/store.go:412-462 | chunks may be put in any order, each once, and all of them end up stored |
| EndToEnd.ServerTakesTheFile | internal/server/web/app.js:139-150 | setup, all chunks in any order and completion succeed and leave exactly the manifest, the chunks and the receipt |
| EndToEnd.CollectsTheFile | internal/collector/collector.go:344-434 | reading that disk the collector verifies exactly the file |
| EndToEnd.EndToEnd | internal/server/web/app.js:106-155 | every sendable file, sealed, stored in any chunk order, completed and collected, is published byte for byte under the sender's name made safe, or its first free variant |
| EndToEnd.ConditionsCanBeMet | internal/store/store.go:728-786 | the conditions of the end-to-end theorem can be met together |
| Uploader.SecondsAreRead | internal/server/web/retry.js:10-20 | a Retry-After in seconds is taken at its word, and as forever beyond exact numbers |
| Uploader.DatesAreAwaited | internal/server/web/retry.js:10-20 | a Retry-After date is awaited if it lies ahead, and what is neither seconds nor a date asks for nothing |
| Uploader.Again | internal/server/web/retry.js:22-44 | a failed attempt is repeated exactly if it is retryable, not the fourth, and its Retry-After finite and within 30 s; the pause is never longer |
| Uploader.PausesDouble | internal/server/web/retry.js:39 | without a wish of the server the pauses double from 250 ms up to a second |
| Uploader.Page.Setup | internal/server/web/app.js:139-140 | after at most four attempts the upload is reserved once, at the time of one of them, or not at all; with three failures at most it is reserved |
| Uploader.Page.Put | internal/server/web/app.js:157-172 | a chunk whose request was lost after it took effect is recognized by its digest; with three failures at most it is stored |
| Uploader.SameDigestSameChunk | internal/server/web/app.js:157-172 | after a conflict the page takes its chunk for stored exactly if the request is open and the chunk there is its own or collides with it |
| Uploader.Page.Finish | internal/server/web/app.js:150 | repeated completion gives the same receipt; with three failures at most the upload is completed |
| Uploader.Page.UploadFile | internal/server/web/app.js:106-155 | a reported upload is on the store exactly as sent, completed; at any time the disk is at a stage of this upload; with at most three failed attempts for each operation it is reported |
| Uploader.StagesAreExact | internal/store/store.go:335-361 | at every stage nothing else has changed, and the file is counted once from the first effective setup on |
| Uploader.SetupAnswered | internal/store/store.go:280-404 | after a successful setup answer the reservation holds exactly the manifest bytes sent |
| Uploader.ReservationStaysInRun | internal/store/store.go:412-541 | in every later run that does not remove the upload the reservation stays as it is |
| Uploader.ReceiptProvesStorage | internal/server/web/app.js:150-153 | with any rivals, if completion returns the receipt the page computed, the store holds exactly its manifest and chunks, or a SHA-256 collision is exhibited |
| Uploader.SealedIsReady | internal/server/web/app.js:106-139 | a file sealed for an open request meets everything UploadFile needs |
| Uploader.UploadedIsCollected | internal/collector/collector.go:344-434 | collecting what a lossy upload stored publishes exactly the file |
| Delivery.NothingIsLost | internal/collector/collector.go:396-433 | in every run of uploads, closures, crashes and any number of collectors with delete-after-collect, each upload ever completed is still stored as it was, or its exact decrypted bytes are in a recipient's directory |
| Delivery.LedgerGrows | internal/store/store.go:491-541 | an upload once completed stays on record as it was completed, whatever operation follows |
| Delivery.ReadyRecovers | internal/collector/collector.go:363-404 | what a collector has read piece by piece from the changing store is what was completed |
| Delivery.DeliveredIsTheFile | internal/server/web/app.js:106-155 | for a file sealed by the page the bytes delivered are that file |
| Assurance.ReceiptMeansSafe | internal/server/web/app.js:150-153 | in every honest run where completion was answered with the root the page computed, in the end the store holds exactly the page's manifest and chunks, or a recipient's directory holds the file, or comparing what was completed with what the page sent finds a SHA-256 collision |
| Reuse.ReusedIdIsLost | internal/store/store.go:600-618 | a history from the idle system, honest but for one reuse of an id: two collectors save the first file, the second file is sent under the same id, and the late acknowledgement leaves it neither stored nor delivered |
| Acknowledging.RemovesItsOwnExactly | internal/store/store.go:600-618 | in every history, with reused ids, purges and acknowledgements from anyone: a published collector has saved what it read, and what is stored under its id is exactly that, or comparing the two finds a collision, if and only if the stored receipt root is the listed one |
| Acknowledging.TestedLosesNothing | internal/store/store.go:600-618 | where completed uploads are removed only by acknowledgements of the root then stored, each upload ever completed, under a fresh or a reused id, is still stored as it was or its decrypted bytes are in a recipient's directory, or one of those acknowledgements met a collision |
| Acknowledging.HonestIsTested | internal/collector/collector.go:396-433 | in every honest run, where ids are fresh, each acknowledgement is of the root then stored |
| Reuse.SuchHistoriesExist | internal/server/web/app.js:106-138 | there are a request, a key and two files for which that history exists |
| Limiter.FailureLimiter.RemoveExpired | internal/server/limiter.go:69-75 | deletes exactly the windows whose minute is over |
| Limiter.FailureLimiter.BucketKey | internal/server/limiter.go:56-67 | an existing bucket, a new one while there is room after clean-up, or the overflow bucket |
| Limiter.FailureLimiter.IsBlocked | internal/server/limiter.go:30-41 | blocked exactly if the live window of the bucket holds twelve failures; a dead one is deleted |
| Limiter.FailureLimiter.Failure | internal/server/limiter.go:43-54 | adds one to the live window of the bucket or begins a new one |
| Limiter.Gate.Authorize | internal/server/server.go:294-324 | the limiter decides first, a wrong capability is denied and charged, a closed request refuses submitters, and nothing else is granted or charged; a grant means that the token is the preimage of the hash for its own kind |
| LimiterRuns.BucketsStayBounded | internal/server/limiter.go:56-67 | in every run at most 4095 addresses have a bucket of their own and the map never exceeds 4096 |
| LimiterRuns.FailuresAreLimited | internal/server/limiter.go:30-79 | with at most n overlapping authorizations of one address its bucket counts at most 11 + n and any 60 seconds hold at most 21 + 2n charges |
| LimiterRuns.SerialFailuresAreLimited | internal/server/server.go:294-311 | without overlap: at most 12 in a bucket and at most 23 charges in any 60 seconds |
| LimiterRuns.BlockedIsDeserved | internal/server/limiter.go:30-41 | an address is turned away by its own bucket only if twelve of its failures were charged in the last minute |
| LimiterRuns.BlockedExactly | internal/server/limiter.go:30-41 | an address is turned away exactly if its own running window holds twelve failures or, where it has none and 4095 others are running, the shared one does |
| LimiterRuns.ChargedExactly | internal/server/limiter.go:43-67 | a failure is charged to the address itself unless it has no window and 4095 others are running; a window that is over starts anew, and no other running one is touched |
| LimiterRuns.OnlyCrowdedOut | internal/server/limiter.go:30-67 | in every run an address is turned away only for twelve failures of its own in the last minute, or because 4095 other windows are running and the shared one is full |
| LimiterOverflow.OverflowExactly | internal/server/limiter.go:43-67 | in every run the overflow bucket counts at most twelve at all times exactly if every failure charged to it comes while the limiter would let the address pass |
| LimiterOverflow.CheckedStaysSmall | internal/server/server.go:294-311 | without overlap it stays within twelve if each failure charged to it belongs to a call checked against it |
| LimiterOverflow.OverflowCanExceed | internal/server/limiter.go:30-67 | a run without overlap in which the overflow bucket counts thirteen |

## Left out

- HTTP routing, headers, error bodies, CSP, origin checks, static assets and `client_ip.go`: plumbing around the modelled operations; of `server.go` only `authorize` is modelled.
- ECDH, HKDF, AES-GCM, SHA-256, JSON and random numbers: parameters with the stated assumptions; fresh upload ids are a hypothesis where needed.
- JSON on disk: bundles, markers, server state and receipts are stored as records, so unreadable or malformed record files (beyond a marker with wrong contents) do not occur; `Closed`'s fail-closed reading of a malformed marker is its mere presence.
- fsync, chmod, symbolic links, `os.Root`, the hard-link probe of the output directory and temporary part files: file creation, rename and directory removal are atomic steps; the removal of a directory is one step.
- Several processes on one data directory: the store's lock is per process. `Purge`, which only the command line calls, is one of the interleaved operations here.
- `ListReceipts` sorting and directory walking: the collector's list is an input; `Delivery` takes receipts of completed uploads as listed.
- `Init`, `Doctor`, `Info`, `Inspect`, the command line, `ParseBytes`, `MakeRequest`, `ParseChunkIndex` and the byte total of Purge: they would add only easy members.
- Clock: each operation of the store reads it once; setup attempts that come after the request has expired are outside `Uploader.Page.UploadFile`.
- Authorization failures of the page's own requests (401, 429, 410 while uploading): `Uploader` starts from an authorized handler.
- `uploadAll`, progress display and cross-file state of the page: they repeat `uploadFile`.
- Text is a sequence of Unicode scalar values, so file names are valid UTF-8 by construction, as JSON decoding makes them; case folding in comparisons of hexadecimal text is ASCII.
- Uploader.SecondsAreRead: how the platform reads a date in Retry-After is a parameter.
- Uploader.Page.UploadFile: assumes that no one else writes under its upload id meanwhile; what holds with rivals is `Uploader.ReceiptProvesStorage`.
- Retry.BytesRequest: cancellation in the middle of a pause is not modelled, and the duration of a doubling is an integer, not a 64-bit one; the guard before doubling keeps it below the maximum.
- Collector.CheckedIsVerified: cancellation is looked at once before publication, not after each chunk as well.
- Waiting.WaitForReceipts: a cancelled context ends a wait early in the source; here a list request either answers or fails.
- Publish.RoomEnough: holds when linking fails only because a name exists, as stated; a link error of another kind ends the publication, as in the source.
