# Verified model of the inference service

This project models the parts of a self-hosted inference service whose correctness is hard to see
from one function at a time, and proves properties of them:

- **Stop strings.** Text is cut at the first stop string, in one go for an ordinary response
  (`StopFilter.TruncateAtStop`) and online for a streamed one (`StopFilter.BufferedStopFilter`). The
  online filter does not always give the same text. `StopTheorems` finds the exact condition on the
  stop strings, `StreamSafe`: no stop that is minimal among the stops under the prefix order contains
  another stop that begins after its start and ends before its end. With it every text and every
  chunking agree; without it there is always a text and a chunking that differ.
- **Streaming.** `EngineStream` is the loop that drains one queue filled by two threads,
  `ChatStream` the route that turns its chunks into server-sent frames and counts one label, and
  `EndToEnd` joins the two to the text and usage of an ordinary response.
- **Model revisions.** `ArtifactPath`, `Manifest` and `BuildManifest` say what a manifest may name,
  what validating a directory against it establishes, and when a directory validates against the
  manifest just built from it; `ValidationTheorems` says what can be done to a valid directory without
  validation noticing. `Publish` is the uploader that writes the manifest last. `ModelCache` is
  the reader: any number of resolvers interleaving at every file-system step, with errors, crashes and
  outside corruption between any two steps. `ModelCacheSafety` holds for every run, `ModelCacheClean`
  for runs without corruption. `Resolver` is the reader's program over the cache directory, proved to
  be a run of that machine and to succeed on what was published; `RoundTrip` runs the publisher's
  program and then the reader's.
- **Lifecycle and admission.** `Lifecycle` interleaves any number of `initialize` calls and shutdowns
  at their awaits, `Admission` any number of `generate` and `stream` requests around one semaphore and
  one gauge. `Manager` is the object whose methods make those steps; it records both runs, so that
  their theorems are read off its fields, with one that needs both: whoever holds a permit is served by
  a model that is READY.
- **Two fetchers.** `RangeDownload` is the resumable range download as a program over a disk that
  records every step, `DownloadTheorems` what it promises over interrupted attempts against any
  server. `LinkResolver` is the archive's link-following loop.

Where the source changes things step by step the model is a class or a loop, and its contract ties the
new state to a function on values; the theorems are about those functions. A run of a concurrent part
is a sequence of steps, each by one task, and an action that does not fit where its task stands changes
nothing, so a statement over all sequences is one over all interleavings.

Bytes are numbers below 256 in the model-revision part and characters elsewhere; characters of a text
are code points. Libraries enter as parameters with contracts: `Manifest.Codec` holds hashing, text
encoding and the JSON form of a manifest, `Faithful` says printing and encoding are undone by parsing
and decoding, `CollisionFree` that neither hash nor canonical form collides; `CodecWitness` gives a
codec that meets all of them and a revision a publisher accepts, so no theorem is about nothing. Clocks,
network replies, the generator's texts and the moments at which awaits end are inputs.

## Findings

- src/inference_service/engines/transformers.py:38-54: the online filter and the whole-text form differ
  for stops `ABCDE` and `C` when `ABC` and `DE` arrive apart: a streamed response says `AB`, an ordinary
  one nothing (`StopTheorems.LeakExample`). They agree if and only if the stops are stream-safe
  (`StopTheorems.StreamingRefinesBatch`).
- src/inference_service/model/manifest.py:88-100 and src/inference_service/model/validation.py:49-57: the
  manifest's format rule looks at suffixes as written, the directory rule at lower-case ones. A directory
  with `m.gguf` and `m.SAFETENSORS` builds a manifest and then fails validation
  (`BuildManifest.UpperCaseWeightsBuildButFail`); `BuildManifest.BuildThenValidate` is the exact
  condition.
- src/inference_service/model/manager.py:186-192: a shutdown that meets an `initialize` between its first
  await and the end of its warm-up is not final: the call assigns a state when it resumes
  (`Lifecycle.AShutdownUndone` is such a run from the start, `Lifecycle.ShutdownIsFinal` the exact
  condition).
- src/inference_service/model/manager.py:178-184: a stream whose inner `aclose` raises returns its permit
  and stays on the gauge for good (`Admission.AGaugeLeftBehind` is such a run,
  `Admission.EveryRunConserves` the exact account).
- scripts/download_qwen_gcp.py:193-199: a complete partial download with the wrong hash is stuck: an
  attempt answered 416 fails and leaves it as it is, until the copy is discarded by force
  (`DownloadTheorems.WrongBytesStick` shows how it comes about, `DownloadTheorems.CompletePartialAnswered416`
  is the exact condition).

## Model

| member | source | states |
|---|---|---|
| StopFilter.TruncationCutsAtFirstStop | src/inference_service/engines/transformers.py:22-26 | truncation reports a stop exactly when the text has one, then keeps precisely the text before the first, and otherwise changes nothing |
| StopFilter.TailChars | src/inference_service/engines/transformers.py:36 | what is held back is one less than the longest stop: no stop is longer than it by more than one character, and some stop reaches that |
| StopFilter.BufferedStopFilter.constructor | src/inference_service/engines/transformers.py:32-36 | a new filter holds nothing and has not stopped |
| StopFilter.BufferedStopFilter.Push | src/inference_service/engines/transformers.py:38-54 | buffer, stopped flag and emitted text after a push are those of the filter step the theorems are about |
| StopFilter.BufferedStopFilter.Finish | src/inference_service/engines/transformers.py:56-60 | the flush emits the held-back text unless the filter has stopped, and leaves nothing behind |
| StopTheorems.WindowTruncation | src/inference_service/engines/transformers.py:41-53 | searching the held-back window alone finds the same first stop as searching everything received |
| StopTheorems.StreamedIsBatchOfSeen | src/inference_service/engines/transformers.py:38-60 | everything streamed is whole-text truncation of the chunks taken in up to the stopping one, and the filter stops exactly when the full text has a stop |
| StopTheorems.Sandwich | src/inference_service/engines/transformers.py:36-60 | for any non-empty stops: until a stop, emitted plus buffer is the input and the buffer is its last min(n, longest-1) characters; at the end batch is a prefix of streamed, which is a stop-free prefix of the text |
| StopTheorems.StreamingRefinesBatch | src/inference_service/engines/transformers.py:22-60 | streaming equals whole-text truncation for every text and every chunking if and only if the stops are stream-safe |
| StopTheorems.UnsafeStopsLeak | src/inference_service/engines/transformers.py:22-60 | for stops that are not stream-safe, a stop cut into two chunks streams text that batch removes entirely |
| StopTheorems.ChunkingIsInvisible | src/inference_service/engines/transformers.py:38-60 | two chunkings of one text always stream the same if and only if the stops are stream-safe |
| StopTheorems.LeakExample | src/inference_service/engines/transformers.py:22-60 | the concrete pair of stops and chunks that streams AB where batch gives the empty string |
| StopTheorems.CancellationIsInvisible | src/inference_service/engines/transformers.py:39-40 | once stopped, any further texts leave the streamed output as it was |
| EngineStream.Drain | src/inference_service/engines/transformers.py:252-294 | the loop over any queue yields the chunks, outcome and cancellation flag of the fold over its events |
| EngineStream.EveryInterleaving | src/inference_service/engines/transformers.py:231-292 | wherever the worker's report lands among the text thread's events, the loop yields one and the same result and finishes only with both threads reported |
| EngineStream.ExpectedIsTheFilteredText | src/inference_service/engines/transformers.py:261-291 | that result is non-empty text chunks followed by exactly one done chunk, and its text is the filter applied to the texts |
| EngineStream.EveryQueueIsSound | src/inference_service/engines/transformers.py:257-294 | whatever arrives in any order: texts only until done, done exactly when finished and last, finished only after both reports, raised only an error that arrived, cancelled exactly when stopped or ended |
| EngineStream.QuietQueueWaits | src/inference_service/engines/transformers.py:257-275 | until an error or the second report arrives the loop waits, and has already yielded all the text the filter let through |
| EngineStream.EndingDecides | src/inference_service/engines/transformers.py:257-292 | the event that ends a quiet queue decides everything: an error raises with the chunks as they were; the second report flushes the filter and yields the done chunk with the prompt and last reported token counts and the reason stop exactly when the text holds a stop or fewer than the maximum were generated; later events change nothing |
| EngineStream.EveryMomentBeginsTheResult | src/inference_service/engines/transformers.py:257-292 | at every moment of every interleaving the chunks yielded so far begin the final result |
| EngineStream.ErrorEndsTheStream | src/inference_service/engines/transformers.py:237-260 | an error before both reports raises it, cancels, and no chunk follows, whatever arrives later |
| ChatStream.HandleException | src/inference_service/api/routes_chat.py:153-164 | each handled exception counts its own label and sends its own error frame; others escape uncounted |
| ChatStream.SendChunk | src/inference_service/api/routes_chat.py:113-150 | one chunk's frames in order, with the role on the first text only and tokens counted on done, up to the yield at which an exception arrives if one does |
| ChatStream.StreamResponse | src/inference_service/api/routes_chat.py:97-164 | frames, status counter and token counter after the loop are those of the reply function, whatever ends it, exceptions at a yield included |
| ChatStream.EveryRun | src/inference_service/api/routes_chat.py:109-164 | in every run the contents sent are the texts delivered, the role goes out on the first content frame only, and the one label counted tells exactly how the run ended, none being counted only for an unhandled exception |
| ChatStream.ErrorsAreTold | src/inference_service/api/routes_chat.py:131-164 | a handled exception is told in one error frame with its own code, in last place, no other run sends one, and the tokens counted are those of the usage frames sent |
| ChatStream.CountedOnce | src/inference_service/api/routes_chat.py:111-162 | counting a label adds one to it and leaves every other count alone |
| ChatStream.ExhaustedRun | src/inference_service/api/routes_chat.py:109-152 | a chunk sequence with one done chunk, last, sends content frames, then one usage frame immediately followed by one [DONE], and counts success |
| EndToEnd.EveryReply | src/inference_service/api/routes_chat.py:109-152 | every interleaving of the engine's threads sends the client the same frames |
| EndToEnd.StreamedContentMatches | src/inference_service/api/routes_chat.py:109-150 | the concatenated contents of a streamed reply equal the content of the ordinary one for stream-safe stops, even if generation was cancelled at a stop and a tail that is no chunk of the full text still arrived; for any stops they extend it and hold no stop |
| EndToEnd.StreamedUsageMatches | src/inference_service/api/routes_chat.py:131-149 | for the same token count the usage frame reports the ordinary response's finish reason and counts, for any stops |
| EndToEnd.UsageSaysWhy | src/inference_service/api/routes_chat.py:131-150 | every streamed reply ends with one usage frame and [DONE]; it carries the token counts and their sum, and stop as the reason exactly when the text holds a stop or generation ended short of the maximum |
| EndToEnd.OrdinaryAnswer | src/inference_service/engines/transformers.py:176-199 | the ordinary answer is the text before the first stop, with stop as the reason exactly when there was one or generation ended short of the maximum |
| EndToEnd.StreamedResponseDiffers | src/inference_service/engines/transformers.py:188-288 | stops that are not stream-safe have a text whose streamed reply differs from the ordinary one under every interleaving |
| ArtifactPath.JoinSplit | src/inference_service/model/manifest.py:28-31 | joining the parts of a split path gives the path back |
| ArtifactPath.CanonicalMeansOrdinaryParts | src/inference_service/model/manifest.py:28-32 | the parser's checks together accept exactly the relative paths none of whose slash-separated parts is empty, a dot or two dots |
| ArtifactPath.BareDot | src/inference_service/model/manifest.py:28-36 | a bare dot parses to no parts, so only the suffix rule refuses it |
| ArtifactPath.AcceptsExactly | src/inference_service/model/manifest.py:25-37 | a raw path is accepted, as itself, exactly when it has no backslash or NUL, only ordinary parts, and an allowed suffix |
| ArtifactPath.SuffixSetsAreDisjoint | src/inference_service/model/manifest.py:13-22 | no suffix is both allowed and unsafe |
| ArtifactPath.SuffixIsFromLastDot | src/inference_service/model/manifest.py:33-36 | the suffix of a name is its last dot and what follows, unless nothing comes before or after that dot |
| ArtifactPath.AcceptedStaysBelow | src/inference_service/model/manifest.py:28-37 | walking an accepted path from the root never leaves the root, at any step, and ends strictly below it |
| ArtifactPath.AcceptedPathsAreDistinct | src/inference_service/model/manifest.py:28-37 | accepted paths that lead to the same location are equal |
| Manifest.CheckTypes | src/inference_service/model/validation.py:44-57 | the type loop passes exactly when every artifact's lower-case suffix is neither unsafe nor the other format's |
| Manifest.CheckEntries | src/inference_service/model/validation.py:58-74 | the entry loop passes exactly when every entry's file exists with its size and hash, and the total is then the sum of the sizes |
| Manifest.CheckUnlisted | src/inference_service/model/validation.py:76-80 | the strict check passes exactly when every artifact is listed |
| Manifest.ValidateModelDirectory | src/inference_service/model/validation.py:35-81 | validation returns exactly when a plain directory stands at the root and is valid against the manifest on disk; the summary has the number of entries and the sum of their sizes |
| Manifest.MarkerIsNotAccepted | src/inference_service/model/manifest.py:25-37 | a file named as the completion marker can never be a manifest entry |
| Manifest.StrictValidationIsDeterminate | src/inference_service/model/validation.py:43-81 | two directories that validate strictly against one manifest have the same artifacts with the same bytes |
| ValidationTheorems.FormatRulesExactly | src/inference_service/model/manifest.py:83-101 | a safetensors manifest is accepted exactly with config.json, a tokenizer file, weights and no GGUF; a GGUF manifest exactly with one GGUF and no safetensors |
| ValidationTheorems.TotalSizeAdds | src/inference_service/model/validation.py:58-81 | the total is additive, one entry counting its size |
| ValidationTheorems.AddingAFile | src/inference_service/model/validation.py:44-80 | a file added to a valid directory goes unnoticed exactly when it is named as a manifest or marker somewhere, or validation is not strict and its lower-cased suffix is neither unsafe nor the other format's |
| ValidationTheorems.ReplacingAnArtifact | src/inference_service/model/validation.py:59-73 | a listed file other than the manifest can be replaced only by its own bytes |
| ValidationTheorems.RemovingOrLinking | src/inference_service/model/validation.py:41-62 | a directory with a link, or without the manifest or a listed file, never validates |
| BuildManifest.CollectEntries | src/inference_service/model/manifest.py:133-147 | the walk succeeds exactly when every listed path is acceptable, and gives one entry per listed file in order |
| BuildManifest.BuildManifest | src/inference_service/model/manifest.py:123-164 | the builder's result, including every way it refuses, is the function the round trip is about |
| BuildManifest.BuildsExactly | src/inference_service/model/manifest.py:123-164 | a manifest is built exactly of a link-free directory whose listed files have acceptable paths and satisfy the format's rules, the format being the one asked for or the only one with weights; it carries the identity given and every listed file in order with size and hash |
| BuildManifest.BuildThenValidate | src/inference_service/model/manifest.py:123-183 | a directory validates strictly against the manifest just built from it if and only if no file has, up to case, the other format's weight suffix |
| BuildManifest.LowerCaseBuildsValidate | src/inference_service/model/validation.py:49-81 | with lower-case suffixes whatever builds within the size limit validates |
| BuildManifest.UpperCaseWeightsBuildButFail | src/inference_service/model/manifest.py:88-100 | a concrete directory that builds and then fails validation |
| ModelCache.MarkerReadsBack | src/inference_service/storage/s3.py:78-128 | a marker written for a digest matches that digest on a later look and no other |
| ModelCache.CacheKeyIsInjective | src/inference_service/storage/s3.py:66-68 | two resolvers share a cache directory only for the same manifest at the same bucket and prefix |
| ModelCacheSafety.BaseStep | src/inference_service/storage/s3.py:70-134 | every step, of any task or of corruption, keeps locks and temporary directories owned by exactly the tasks in their scope and returned directories validated |
| ModelCacheSafety.EveryRun | src/inference_service/storage/s3.py:70-134 | and so does every run, with errors, crashes and corruption anywhere |
| ModelCacheSafety.CrashesAnywhere | src/inference_service/storage/s3.py:70-134 | a crash can come in every phase; it stops the task, frees its lock and touches no directory |
| ModelCacheSafety.ErrorsWithoutTemporary | src/inference_service/storage/s3.py:70-99 | an error before there is a temporary directory fails the call and gives back its lock |
| ModelCacheSafety.ErrorsWithTemporary | src/inference_service/storage/s3.py:132-134 | an error afterwards removes the temporary directory, gives back the lock and fails |
| ModelCacheSafety.StepIsLocal | src/inference_service/storage/s3.py:74-134 | no step reaches beyond the task's own temporary directory, lock and target |
| ModelCacheSafety.NothingIsOverwritten | src/inference_service/storage/s3.py:88-97 | in whatever state, corrupted or not, a target that holds something is neither written into nor renamed over: only its removal changes it, and publishing onto it fails |
| ModelCacheClean.SafeStep | src/inference_service/storage/s3.py:77-134 | without corruption every step keeps each target complete and marked and each temporary directory exactly as far filled as its task says |
| ModelCacheClean.EveryTargetIsComplete | src/inference_service/storage/s3.py:77-134 | with crashes between any two steps, an existing target always carries its manifest's marker and validates strictly, was populated exactly once, and nothing was ever deleted from a target |
| ModelCacheClean.TargetsAreFinal | src/inference_service/storage/s3.py:79-129 | a published directory is never changed or removed by any later step |
| ModelCacheClean.ReturnedIsTheRevision | src/inference_service/storage/s3.py:70-131 | what a returned resolver hands out agrees file for file with any directory published under the manifest it read |
| ModelCacheClean.EveryResultWasValidated | src/inference_service/storage/s3.py:77-134 | with corruption allowed: every returned path had just passed validation, returned and failed resolvers leave no temporary directory, and finished ones hold no lock |
| ModelCacheClean.ReturningStep | src/inference_service/storage/s3.py:83-131 | at the step that returns, the directory validated is the one standing at the target, or the one validated before it was marked and renamed there |
| Resolver.CacheDirectory.ReceiveObject | src/inference_service/storage/s3.py:107-125 | the chunk loop succeeds exactly when the body ends unbroken with the entry's size and hash, and has then stored exactly its bytes; it takes only machine steps |
| Resolver.CacheDirectory.FetchObject | src/inference_service/storage/s3.py:102-125 | one object arrives exactly when it is in the bucket, whole, and no file of its path exists yet |
| Resolver.CacheDirectory.RemoveTarget | src/inference_service/storage/s3.py:86-97 | a target is removed file by file and then altogether, each removal a machine step |
| Resolver.CacheDirectory.Revalidate | src/inference_service/storage/s3.py:83-85 | a target with a matching marker is a hit exactly when it still validates |
| Resolver.CacheDirectory.Lookup | src/inference_service/storage/s3.py:78-97 | a hit is exactly a directory at the target that carries the marker and has just validated; otherwise the target is gone; both by machine steps |
| Resolver.CacheDirectory.MakeDirectory | src/inference_service/storage/s3.py:99-101 | a fresh temporary directory holds the manifest bytes and nothing else |
| Resolver.CacheDirectory.FetchAll | src/inference_service/storage/s3.py:99-125 | the copy succeeds exactly for a whole revision, and then holds exactly the manifest bytes and its objects |
| Resolver.CacheDirectory.Validate | src/inference_service/storage/s3.py:127 | what was fetched goes on to be marked exactly when it validates |
| Resolver.CacheDirectory.Seal | src/inference_service/storage/s3.py:127-128 | exactly a copy that validates is marked, and nothing else in it changes |
| Resolver.CacheDirectory.PublishTemporary | src/inference_service/storage/s3.py:129-131 | the rename puts the temporary directory at the target and gives up the lock, in one machine step |
| Resolver.CacheDirectory.CleanUp | src/inference_service/storage/s3.py:132-134 | after an error the temporary directory and the lock are gone and nothing else has changed |
| Resolver.CacheDirectory.Populate | src/inference_service/storage/s3.py:99-134 | succeeds exactly when the revision is whole and its copy validates: that copy with its marker is then at the target, otherwise targets are as they were; either way the temporary directory and the lock are gone |
| Resolver.CacheDirectory.ReadManifestOf | src/inference_service/storage/s3.py:71-73 | the manifest is read exactly when it is within 4 MiB, parses and satisfies its rules; otherwise the call ends before any lock is taken |
| Resolver.CacheDirectory.Lock | src/inference_service/storage/s3.py:74-77 | the lock of the key is taken exactly when it is free; otherwise the call fails |
| Resolver.CacheDirectory.Resolve | src/inference_service/storage/s3.py:70-134 | returns exactly when the manifest reads, its lock is free, and the target is cached or the revision can be copied; a cached or locked target is not touched, other targets never are; otherwise the target returned is exactly the copy of the revision with its marker; what is returned validates; every run is one of the cache machine |
| Resolver.CacheDirectory.ResolveLocked | src/inference_service/storage/s3.py:77-134 | inside the lock: returns exactly when the target is cached, with the marker and valid, and is then served as it is whatever the bucket holds, or the revision is whole and its copy validates, and is then exactly that copy with its marker; other targets stay, nothing is left behind, the lock is released |
| Resolver.CacheDirectory.TargetsAreComplete | src/inference_service/storage/s3.py:77-129 | after any resolutions from an empty cache, what stands at a key is complete, marked and filled once |
| ModelCacheClean.MarkingKeepsValid | src/inference_service/storage/s3.py:127-128 | adding the marker to a directory that validates leaves it valid, strictly or not |
| Resolver.CopyValidates | src/inference_service/storage/s3.py:99-127 | copying a strictly validated directory's objects into an empty directory gives one that validates against the same manifest |
| Publish.ObjectStore.UploadAll | scripts/upload_model.py:29-36 | uploads go out as a prefix of artifacts-then-manifest, complete exactly when none fails |
| Publish.ObjectStore.PublishRevision | scripts/upload_model.py:20-36 | nothing of a directory that does not validate strictly is uploaded; of one that does, a prefix of its program |
| Publish.ManifestMeansWholeRevision | scripts/upload_model.py:29-36 | on a fresh prefix, a reader that finds the manifest at any moment finds every artifact, matching, then and after |
| Publish.PublishedIsResolvable | scripts/upload_model.py:29-36 | round trip: what was published in full meets every condition under which Resolve succeeds, whatever the chunks |
| Publish.ShuffledIsOnlyPublished | scripts/upload_model.py:29-36 | any shuffle of any number of publishers' uploads, each cut short anywhere, contains only uploads of publishable revisions, as the snapshot asks |
| Publish.PublishingStaysOnlyPublished | scripts/upload_model.py:20-36 | and so does a log after one more run of the publisher's program, finished or not |
| Publish.SnapshotOfOneRevision | scripts/upload_model.py:29-36 | whatever publishers write at the prefix, interleaved and cut short anywhere, and however resolvers interleave: a resolver that returns hands out all artifacts of one published revision, the one whose manifest it read, and no others |
| Publish.OnlyTheRevisionsBytesPass | src/inference_service/storage/s3.py:112-125 | bytes read for an entry pass the size and hash check exactly when they are that revision's file |
| RoundTrip.PublishThenResolve | src/inference_service/storage/s3.py:70-134 | running the publisher and then the resolver on empty stores succeeds exactly when the directory is publishable and no upload fails, and gives back the same artifacts |
| Lifecycle.StepKeepsExclusive | src/inference_service/model/manager.py:75-141 | every step keeps the lock holder the one call in the pipeline, standing where the state says, and no call refused |
| Lifecycle.StepKeepsRecorded | src/inference_service/model/manager.py:75-141 | every step keeps the event log orderly and state, error, ready gauge, load counters and validated format in agreement with it |
| Lifecycle.EveryRun | src/inference_service/model/manager.py:75-141 | both hold over every run of overlapping initialize calls, each succeeding, failing or cancelled at any stage |
| Lifecycle.UnloadBetweenLoads | src/inference_service/model/manager.py:107-138 | between any two starts of a load an unload was attempted |
| Lifecycle.WarmedMeansOneWholeAttempt | src/inference_service/model/manager.py:84-119 | a log that ends with a warm-up ends with one call's resolve, validation in the configured format, load and warm-up, uninterrupted |
| Lifecycle.LoadsAccounted | src/inference_service/model/manager.py:108-135 | successful loads are the attempts given up right after loading, plus one while warming or ready |
| Lifecycle.ReadyMeansLoadedAndWarmed | src/inference_service/model/manager.py:75-130 | READY implies one whole attempt by one call and the load account, over every run from the start |
| Lifecycle.ReadyIsAbsorbing | src/inference_service/model/manager.py:76-78 | from READY, any further calls change nothing but their own standing, so no load ever starts again |
| Lifecycle.AnAttemptSucceeds | src/inference_service/model/manager.py:76-130 | from any manager with the lock free, NEW or FAILED, a call whose stages all return ends READY and succeeded, with one more load and the lock free |
| Lifecycle.AFailureEnds | src/inference_service/model/manager.py:131-141 | a call that raises or is cancelled at any stage ends raised whatever becomes of the unload: FAILED, one more failure, the unload attempted, the lock free |
| Lifecycle.ValidationDecides | src/inference_service/model/manager.py:92-107 | the configured format with a passing preflight goes on to load; anything else gives up without one |
| Lifecycle.ALateCallEnds | src/inference_service/model/manager.py:76-80 | a call that gets the lock when READY is skipped, when stopping refused, and one cancelled while waiting ends; none changes anything else |
| Lifecycle.ShutdownIsFinal | src/inference_service/model/manager.py:186-192 | after a shutdown begins every run stays stopping or stopped if and only if no initialize was between its first await and the end of its warm-up |
| Lifecycle.ShutdownStops | src/inference_service/model/manager.py:186-192 | a shutdown withdraws readiness at once and ends STOPPED, or stays stopping if unload raises |
| Lifecycle.AShutdownUndone | src/inference_service/model/manager.py:186-192 | a run from the start in which a shutdown is followed by FAILED |
| Manager.ModelManager.constructor | src/inference_service/model/manager.py:55-73 | a new manager has recorded no step: NEW, every permit free |
| Manager.ModelManager.LifecyclePromises | src/inference_service/model/manager.py:75-141 | on the fields, without a shutdown: READY means validated in the configured format, loaded and without error; at most one call is in the pipeline; the load counter is accounted for |
| Manager.ModelManager.AdmissionPromises | src/inference_service/model/manager.py:147-184 | on the fields: free capacity plus holders are the configured number, the gauge is holders plus streams whose aclose raised, nobody released twice |
| Manager.ModelManager.HoldersAreServed | src/inference_service/model/manager.py:143-184 | without a shutdown, whoever holds a permit is served by a model that is READY and validated in the configured format |
| Manager.ModelManager.Call | src/inference_service/model/manager.py:75-76 | a call waits for the lock and touches nothing else |
| Manager.ModelManager.Begin | src/inference_service/model/manager.py:81-84 | an attempt takes the lock, clears the error and is RESOLVING |
| Manager.ModelManager.Enter | src/inference_service/model/manager.py:76-90 | what the lock finds decides between skipping, refusing and beginning |
| Manager.ModelManager.EnterInitialize | src/inference_service/model/manager.py:76-90 | from the lock to the first await is one lifecycle step: skipped when READY, refused when stopping, otherwise RESOLVING, or given up if storage raises |
| Manager.ModelManager.ResolveReturned | src/inference_service/model/manager.py:90-92 | resolve's return is one lifecycle step |
| Manager.ModelManager.CheckFormat | src/inference_service/model/manager.py:92-107 | the summary is stored; the configured format with a passing preflight goes on to LOADING, anything else gives up |
| Manager.ModelManager.ValidationReturned | src/inference_service/model/manager.py:92-107 | validation's return is one lifecycle step: to LOADING exactly for the configured format and a passing preflight, else to FAILED |
| Manager.ModelManager.LoadReturned | src/inference_service/model/manager.py:107-110 | a load's return is one lifecycle step and counts one load |
| Manager.ModelManager.BecomeReady | src/inference_service/model/manager.py:117-120 | load time, READY and the gauge are set together and the lock is given back |
| Manager.ModelManager.WarmupReturned | src/inference_service/model/manager.py:110-120 | the warm-up's return is the one lifecycle step to READY |
| Manager.ModelManager.GiveUp | src/inference_service/model/manager.py:131-138 | any failure sets FAILED, the error, the gauge and the failure counter and goes on to unload with the lock held |
| Manager.ModelManager.StageRaised | src/inference_service/model/manager.py:90-138 | an exception or cancellation at any awaited stage is the one failing lifecycle step |
| Manager.ModelManager.UnloadEnded | src/inference_service/model/manager.py:137-141 | however the unload ends, the lock is released and the failure raised on |
| Manager.ModelManager.LoadAndWarm | src/inference_service/model/manager.py:106-130 | load and warm-up run alone end READY exactly when both return, with the load counted if it did |
| Manager.ModelManager.RunStages | src/inference_service/model/manager.py:90-130 | an attempt run alone ends READY exactly when every stage returns and the format is the configured one |
| Manager.ModelManager.Initialize | src/inference_service/model/manager.py:75-141 | initialize run alone: skipped when READY, refused when stopping, else succeeded and READY exactly when nothing raises and the format is the configured one, and raised and FAILED otherwise; counters, gauge and lock accordingly |
| Manager.ModelManager.BeginShutdown | src/inference_service/model/manager.py:186-191 | shutdown acts exactly when not already stopping or stopped |
| Manager.ModelManager.EndShutdown | src/inference_service/model/manager.py:191-192 | STOPPED is assigned whatever the state has become, unless unload raised |
| Manager.ModelManager.Submit | src/inference_service/model/manager.py:143-148 | a request queues for a permit exactly when the manager is READY |
| Manager.ModelManager.PermitGranted | src/inference_service/model/manager.py:149-158 | a granted permit and the gauge move together |
| Manager.ModelManager.PermitRefused | src/inference_service/model/manager.py:149-154 | a timeout or a cancellation in the queue touches neither permits nor gauge |
| Manager.ModelManager.GenerateEnded | src/inference_service/model/manager.py:155-162 | however the engine call ends, the request holds no permit afterwards, capacity is one more and the gauge one less |
| Manager.ModelManager.StreamLeftLoop | src/inference_service/model/manager.py:175-181 | a stream that leaves its loop for any reason keeps its permit while the inner stream closes |
| Manager.ModelManager.StreamClosed | src/inference_service/model/manager.py:178-184 | however the inner close ends, the request holds no permit afterwards and capacity is one more; the gauge is one less only if it did not raise |
| Manager.ModelManager.Generate | src/inference_service/model/manager.py:147-162 | generate run alone: turned away, timed out, cancelled or completed, with capacity and gauge as before |
| Manager.ModelManager.Stream | src/inference_service/model/manager.py:164-184 | stream run alone likewise, the gauge one higher exactly if the inner close raised |
| Admission.StepConserves | src/inference_service/model/manager.py:147-184 | every step of every request keeps the account of permits, releases and gauge |
| Admission.EveryRunConserves | src/inference_service/model/manager.py:147-184 | over every interleaving free permits plus holders are the configured number, no request releases twice, and the gauge is the holders plus the streams whose aclose raised |
| Admission.PermitsComeBack | src/inference_service/model/manager.py:147-184 | from the start: never more holders than permits, and with no holder left every permit is back and a queued request is admitted |
| Admission.GenerateGivesBack | src/inference_service/model/manager.py:155-162 | however a running generate ends, its permit and its place on the gauge come back |
| Admission.StreamGivesBack | src/inference_service/model/manager.py:172-184 | a stream that leaves its loop for any reason gives its permit back when its inner stream is closed, and its place on the gauge unless that raises |
| Admission.QueueDecides | src/inference_service/model/manager.py:147-156 | a request queues exactly when ready, is let in exactly when a permit is free, and leaves the queue with nothing |
| Admission.AGaugeLeftBehind | src/inference_service/model/manager.py:178-184 | one stream whose aclose raises leaves every permit free, nobody running and the gauge at one |
| RangeDownload.ContentRangeReadsBack | scripts/download_qwen_gcp.py:106-114 | a Content-Range that starts at n is read as n, for every n and whatever follows the dash |
| RangeDownload.DigitsByPlace | scripts/download_qwen_gcp.py:110-114 | a further digit multiplies by ten and adds, and an underscore before it counts for nothing |
| RangeDownload.OnlyNumeralsAreStarts | scripts/download_qwen_gcp.py:106-114 | nothing but a bytes range whose start is a numeral is read as a start |
| RangeDownload.Downloader.ReceiveChunks | scripts/download_qwen_gcp.py:136-152 | the chunk loop appends exactly the leading chunks that fit, refuses the first that does not, and reports each multiple of PROGRESS_BYTES crossed exactly once, by the chunk that reaches it |
| RangeDownload.Downloader.StreamResponse | scripts/download_qwen_gcp.py:117-152 | appends after the resumed bytes, starts over, or refuses, by status and range; disks, outcome and reports are the specification's |
| RangeDownload.Downloader.MoveIntoPlace | scripts/download_qwen_gcp.py:199-202 | rename and manifest happen, in this order, only for a verified partial file; on success the destination is the artifact and listed |
| RangeDownload.Downloader.FetchAndPublish | scripts/download_qwen_gcp.py:171-202 | every disk passed through and the outcome are the specification's, for every reply; on success the destination is the artifact and listed |
| RangeDownload.Downloader.Download | scripts/download_qwen_gcp.py:155-202 | likewise with links refused and forced copies removed first |
| DownloadTheorems.OnlyVerifiedBytesArrive | scripts/download_qwen_gcp.py:166-202 | over any attempts against any servers stopped at any steps, the destination is what it was, gone, or bytes of the approved size and hash, and the partial file never outgrows the artifact |
| DownloadTheorems.SucceedsExactly | scripts/download_qwen_gcp.py:155-202 | for every disk, reply and force: download returns exactly when no link is in the way and the destination already is the artifact, or an approved origin completes it from a partial file that is not too large; the destination is then of the approved size and hash and listed, and on failure neither has changed beyond what force removes |
| DownloadTheorems.StreamOutcome | scripts/download_qwen_gcp.py:124-152 | a reply that does not answer the request is refused untouched; one that is too long stops at the last chunk that fits; one that breaks off keeps all it brought; any other is all in the partial file |
| DownloadTheorems.NobodyIsAsked | scripts/download_qwen_gcp.py:166-183 | with a link, a destination, too large a partial file or no approved origin, the attempt is the same whatever the server would say |
| DownloadTheorems.ForceStartsOver | scripts/download_qwen_gcp.py:168-170 | force removes both files and goes on as if they had never been there |
| DownloadTheorems.RefusalsLeaveTheDisk | scripts/download_qwen_gcp.py:124-134 | a refusal, an HTTP error or an unreachable server leaves the disk alone and fails |
| DownloadTheorems.PartialStaysAPrefix | scripts/download_qwen_gcp.py:117-202 | against servers of true bytes the partial file is always a prefix of the artifact |
| DownloadTheorems.EveryByteCounts | scripts/download_qwen_gcp.py:124-202 | with ranges honoured, an attempt shortens what remains by exactly the bytes it delivers, or publishes when none remain |
| DownloadTheorems.CompletePartialAnswered416 | scripts/download_qwen_gcp.py:193-202 | a complete partial file answered 416 is published if its hash is right, and otherwise left as it is |
| DownloadTheorems.WrongBytesStick | scripts/download_qwen_gcp.py:190-199 | a server that sends the right number of wrong bytes leaves a partial file that a 416 then neither publishes nor removes |
| DownloadTheorems.RetryingFinishes | scripts/download_qwen_gcp.py:155-202 | one helpful reply more than the bytes that remain always ends with the artifact and its manifest in place, broken-off replies included |
| DownloadTheorems.RerunFinishesWithoutFetching | scripts/download_qwen_gcp.py:171-202 | wherever an attempt that brought the destination into being stops, a rerun only writes the manifest and returns, whatever the server would answer |
| LinkResolver.LastMemberWins | scripts/download_llama_runtime.py:97-110 | a file holds the bytes of the last kept member of its base name |
| LinkResolver.LastLinkWins | scripts/download_llama_runtime.py:97-103 | a link points to the base name of what the last kept member of its name links to |
| LinkResolver.UntouchedNames | scripts/download_llama_runtime.py:97-110 | names no kept member sets or writes are no links, and files only as they were before |
| LinkResolver.BaseIsLastName | scripts/download_llama_runtime.py:98-102 | the base of a path that ends in an ordinary name is that name |
| LinkResolver.WhatIsKept | scripts/download_llama_runtime.py:76-81 | the platform's server, licences and shared libraries are kept, implementation libraries only if the server's |
| LinkResolver.CycleWalksToItself | scripts/download_llama_runtime.py:112-116 | a walk that ends on a link has come back to a cycle, and from there ends where it began |
| LinkResolver.ResolvingOne | scripts/download_llama_runtime.py:111-119 | resolving one more link, after any others, adds the file its walk ends at and nothing else |
| LinkResolver.MaterialisedExactly | scripts/download_llama_runtime.py:111-119 | with link and file names disjoint, a link is materialised exactly when its chain ends at an extracted file, with that file's bytes; one that leads into a cycle never is; files stay |
| LinkResolver.Runtime.ReadMembers | scripts/download_llama_runtime.py:96-110 | the pass over the members leaves the files and links of the specification |
| LinkResolver.Runtime.ResolveLinks | scripts/download_llama_runtime.py:111-119 | the two nested loops terminate and, in whatever order the links come, leave the one resolved directory |
| LinkResolver.Runtime.ExtractRuntime | scripts/download_llama_runtime.py:84-123 | extraction succeeds exactly when the resolved directory holds the server |

## Left out

Weaker than the source promises, or idealised:

- StopTheorems.StreamingRefinesBatch: empty stop strings are excluded, as the request schema excludes them.
- EndToEnd.StreamedUsageMatches: compares equal token counts; generation cancelled at a stop produces fewer tokens than a full run, which is the model's doing and not the route's.
- EngineStream.Drain: time to first token and the joins of the two threads are not modelled; the streamer's chunks are assumed to concatenate to the decoded text.
- ChatStream.EveryRun: makes no claim that no error frame follows [DONE]; the timeout still covers the generator's clean-up there. Latency and time-to-first-token observations are not modelled.
- ArtifactPath.AcceptsExactly: lower-casing covers ASCII letters and the Kelvin sign, the only characters that lower to letters of the suffix sets.
- Manifest.ValidateModelDirectory: reading a file is one step, and directories appear only through the paths of their files.
- Manifest.StrictValidationIsDeterminate: says nothing of files named as the manifest or the marker, at any depth, which strict validation does not look at.
- BuildManifest.BuildThenValidate: the field lengths and the hexadecimal check of a manifest are part of parsing; writing is one step, without its temporary file.
- ModelCacheClean.EveryTargetIsComplete: SHA-256 and the manifest digest are injective by hypothesis, object reads are of fixed bytes, locks are exclusive and end with their process; targets that are dangling links are not modelled.
- ModelCacheClean.EveryResultWasValidated: with corruption a hit validates against the manifest found in the cache, so a manifest rewritten together with its files passes.
- Resolver.CacheDirectory.Resolve: nobody else moves meanwhile, so a lock that is held stays held and times out; interleaving and crashes are in the cache machine. A manifest that lists a path below another listed path, which no directory can hold, raises in the source.
- Publish.ManifestMeansWholeRevision: the manifest is not one of its own entries, which the path rule alone does not forbid.
- Publish.PublishedIsResolvable: likewise; an exclusive creation would refuse such an entry.
- RoundTrip.PublishThenResolve: likewise; objects arrive in one chunk each, other chunks are in Publish.PublishedIsResolvable.
- Publish.SnapshotOfOneRevision: the log of uploads starts on a prefix without a manifest; earlier revisions are part of the log.
- Lifecycle.EveryRun: runs with a shutdown in flight are left to Lifecycle.ShutdownIsFinal; a thread that goes on loading after its await was cancelled is not modelled.
- Admission.EveryRunConserves: the semaphore hands out a permit or times out, never both; the race inside the library's timeout is part of that contract.
- RangeDownload.ContentRangeReadsBack: integers are read as the interpreter reads ASCII text; other digits and its limit on very long numerals are not modelled.
- RangeDownload.Downloader.Download: directories in place of files, failing disk operations other than as a reply that breaks off, and the hashing loop are not modelled; the manifest write is one step.
- LinkResolver.Runtime.ExtractRuntime: names are lowered as in ArtifactPath; the executable bits are not modelled. A zip archive holds no links, so its branch is the pass over the members alone.

Parts of the repository that are not modelled:

- the generator, tokenizer and model internals, and the llama.cpp engine's process and proxying
- request schemas, authentication, body limits, redaction, settings checks and the memory estimate
- metrics rendering, health routes, logging and command lines
- the mirror check and the runtime archive's own download and hash check
