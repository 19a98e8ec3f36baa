# Pulld, verified model

Pulld is a pull-through registry cache: it serves images and blobs from a local or S3 store and fetches
what is missing from a set of upstream mirrors. This project models the parts of it that carry state,
branching or arithmetic, and proves properties of those models for all inputs, runs and schedules.
`dafny verify dfyconfig.toml` checks everything.

Upstream replies, hashes, JSON parsing, failing reads, failing and interrupted writes, and the order of
completion are parameters; a statement that needs some of them to behave says so in its hypotheses. Where the
program does not do what its comments or documentation say, the model follows the program, and the exact
condition is proved.

| module | what it models |
|---|---|
| `SingleFlight` | deduplicated downloads as a protocol among any number of callers |
| `BlobDownload`, `BlobFiles`, `BlobCache` | the resume, stream, verify and commit steps of one blob's download, of all blobs in one directory, and the object that does them |
| `Ranges` | byte ranges of cached blobs, and the resume check |
| `Eviction` | the size limit of the blob directory and both writers |
| `MirrorStats`, `MirrorRace`, `AuthRetry` | mirror statistics, adaptive selection, racing, and the per-mirror retry after a 401 |
| `StorageKeys`, `KeyedStore` | object keys, paths and temp paths, and the store they are used in, with interrupted writes |
| `Names` | the admission rewrite, the `/v2/` paths, the printers and the parsers of image names |
| `EventLog` | the bounded pull-event log and the pull metrics |
| `Manifests`, `ImageCache`, `PrePull`, `Closure`, `ImageService` | platform choice, the manifest cache with GET and HEAD, pre-pull, runs of all of these one at a time, and the imperative operations |
| `Answers` | what requests and pulls answer, from what is cached and what upstream answers |
| `CacheWrites`, `Interleaving`, `OverlappingPulls`, `SequentialRuns` | the single writes of these operations, any interleaving of their lookups and writes, a pull among them, and the runs of `Closure` as one such interleaving |
| `Refinement` | that the writes an interleaving performs leave in the store, at its locations, exactly what the cache is said to hold |
| `Text`, `StableSort`, `Wrappers` | strings, the stable sort, options and results |

The main results:

- **Singleflight.** A digest is in the map exactly from its leader's insert to its task's removal, one
  download per digest runs, and a caller gets that download's result exactly if it subscribed before the
  send. A leader that subscribes later waits for ever, since it holds a sender of its own channel.
- **Blob commits.** Over every run of one-at-a-time GETs for any number of digests a published blob hashes to
  its digest, provided partial files can be read and, on the file system, exactly if no name in use is the temp
  name of another ("a.tmp" is that of "a"). An attempt reaches the commit exactly under the stated condition; a resumed
  download with a Content-Length never does; what is left of the temp file is known for every outcome, a corrupt
  body is never resumed, and a temp file that is already complete is never published.
- **Pre-pull closure.** With honest upstreams, an image that a pull reports, with no write of its own failing and
  unless it fell for a stale legacy copy, is served from the cache with every blob a hit and right, whatever was
  begun before, however the operations overlap, and whatever else fails; and it stays so as long as no operation
  maps its tag to another digest. An operation does not if it can read what is cached, or finds the tag unmoved
  upstream and is not cut short writing the mapping. A fill that was begun before the tag moved can put it back.
- **Answers.** Of two responses the one that counts is that to a token if one was obtained; a miss is answered with
  its body, status or 502, and a later GET gives the same body. A fetch, a blob pull and a whole pull succeed exactly
  under conditions on what is cached and on what upstream answers in one, or for a blob three, exchanges.
- **Writes that fail.** After a fetch that reports success the handler finds the manifest exactly under a stated
  condition on how its writes ended; one failed write hides it for ever.
- **Keys.** A write leaves every other key alone exactly unless the two share a location or one's temp file is
  the other's path; otherwise every key is a variable of its own, and interrupted writes of blobs, manifests by
  digest and charts change nothing.
- **Racing.** The answer is the first 2xx to arrive, else the first 401, else the last response, so its class does not
  depend on the schedule. Statistics go to the mirror that
  answered exactly if the raced list is a prefix of the configured one: for the adaptive race, if the first three
  mirrors are in order of score and none scores higher. A single error breaks that.
- **Names.** A rewritten image is requested, split and parsed into what it stands for exactly if its registry
  has a dot or its repository a slash.
- **Eviction.** A file goes exactly if it can be removed and the removable files before it in stable order of age do
  not make room, so none does when there is room. The directory is within its limit after every write that gets as far as the eviction, or holds
  one file; a streamed blob of size s is published exactly if nothing fails and 2s is within the limit.

## Model

| member | source | states |
|---|---|---|
| SingleFlight.InvStep | src/cache/storage.rs:258-343 | every lock section, spawn, send, subscribe, receive and removal, in any interleaving, keeps the protocol's invariant |
| SingleFlight.MapHoldsExactlyLiveDownloads | src/cache/storage.rs:267-324 | in every reachable state a digest is mapped to exactly the channel between insert and removal, a removal takes no other entry, and the unwrap never fails |
| SingleFlight.OneDownloadPerDigest | src/cache/storage.rs:267-324 | at most one download per digest is in flight |
| SingleFlight.DeliveryIsExact | src/cache/storage.rs:285-343 | no channel carries two messages or lags; a returned caller has its download's result (up to error cloning) iff it subscribed before the send, and otherwise a closed error, after its leader returned |
| SingleFlight.ReceivedIsExact | src/cache/storage.rs:285-336 | a caller in time receives the result itself if it is the last to hold it or it is no error, else a clone of the error |
| SingleFlight.ClonedErrors | src/error.rs:33-41 | a cloned error is the error, or a cache error with its text, and cloning again changes nothing |
| SingleFlight.RunsAreBounded | src/cache/storage.rs:258-343 | a run takes at most ten actions per arrival, so no schedule goes on for ever |
| SingleFlight.QuiescentOutcomes | src/cache/storage.rs:285-343 | when nothing can happen any more the map is empty, every task has ended, and each caller's outcome is determined by when it and its leader subscribed |
| SingleFlight.LateLeaderWaitsForever | src/cache/storage.rs:306-343 | a leader whose subscription follows its own task's send never returns, whatever happens |
| SingleFlight.LoneLeaderCanMissItsOwnDownload | src/cache/storage.rs:317-330 | that state is reachable by a single caller |
| BlobDownload.ConsumeInClosedForm | src/registry/blob.rs:632-724 | after any stream the hasher, the counter and the file have grown by exactly the bytes received while the writer lives, and the file by a prefix of them otherwise |
| BlobDownload.HasherMatchesFile | src/registry/blob.rs:159-182 | while the writer is alive the hasher's input is the temp file's contents |
| BlobDownload.CommitConditionIsExact | src/registry/blob.rs:727-783 | an attempt reaches the commit iff nothing failed, the hash matches, and Content-Length is absent or equals offset plus bytes received; then it publishes exactly the assembled bytes |
| BlobDownload.AppendedIff | src/registry/blob.rs:543-621 | what is received is put behind the temp file iff that is not empty and a 206 continues it, else the download starts over |
| BlobDownload.OutcomeIsExact | src/registry/blob.rs:280-814 | how an attempt ends is a function of the reply and the faults |
| BlobDownload.TempIsExact | src/registry/blob.rs:543-814 | and what it leaves of the temp file: untouched without an accepted reply, moved or left by a commit, removed when the checks or the commit fail, kept when the stream breaks or cannot be written |
| BlobDownload.CorruptBodyIsNotResumed | src/registry/blob.rs:727-783 | a complete body with a wrong hash is removed and never resumed |
| BlobDownload.RunsAreSafe | src/registry/blob.rs:159-182 | over every run of GETs for one digest whose temp file and blob are two files, with any leftover file, replies and failures, a published blob hashes to its digest if partial files are readable |
| BlobDownload.CommittedBytesSafeIff | src/registry/blob.rs:175-182 | without that proviso, what is committed hashes to the digest iff the download was not resumed |
| BlobDownload.UnreadPartialFileBreaksSafety | src/registry/blob.rs:175-182 | an input on which an unreadable partial file makes a wrong blob be published |
| BlobDownload.TempStaysAPrefixOverRuns | src/registry/blob.rs:543-666 | with an honest upstream the temp file is a prefix of the blob after every run |
| BlobDownload.StreamErrorExtendsTemp | src/registry/blob.rs:785-814 | a stream error keeps the file, extended by exactly the bytes received |
| BlobDownload.DisconnectDeletesTemp | src/registry/blob.rs:653-783 | a client that leaves before the last byte costs the partial file |
| BlobDownload.CleanDownloadCommitsIff | src/registry/blob.rs:727-783 | a complete download from an honest upstream commits iff it was not resumed or carried no Content-Length |
| BlobDownload.ClientGetsBlobIffNotResumed | src/registry/blob.rs:612-724 | the client of the miss is sent the whole blob iff the download was not resumed |
| BlobDownload.PublishedWithinTwoGetsIff | src/registry/blob.rs:517-534 | two clean GETs publish the blob iff the temp file is not already complete; a complete one is answered 416 for ever |
| BlobDownload.FullTempIsReachable | src/registry/blob.rs:785-814 | a stream that breaks after the last byte leaves such a file |
| BlobCache.BlobCache.ObjectPutFile | src/cache/storage.rs:1286-1371 | for any short reads and failing parts, the key holds exactly the file or what it held before |
| BlobCache.BlobCache.CommitFromTemp | src/cache/storage.rs:626-646 | a commit publishes exactly the temp file's bytes or changes nothing, on either backend, whatever the names, and touches no other file |
| BlobCache.BlobCache.StreamToTemp | src/registry/blob.rs:632-724 | the streaming loop does to file, hasher, counter and writer what the specification's fold does |
| BlobCache.BlobCache.GetBlob | src/registry/blob.rs:20-831 | a hit changes nothing; a miss or a blob that cannot be opened does to the temp file and the blob in the one directory, whatever their names, what one attempt does, and nothing to any other file |
| BlobFiles.OwnSlot | src/registry/blob.rs:159-160 | where temp file and blob are two files a GET does to them what one attempt does |
| BlobFiles.GetLeavesOthersIff | src/registry/blob.rs:159-160 | a GET for one name can change what another finds iff the two have the same temp name |
| BlobFiles.StoreRunsAreSafe | src/registry/blob.rs:159-783 | over every run of GETs for any digests in one directory each published blob hashes to its name, if no name in use is a temp name of one in use |
| BlobFiles.PlainNamesAreSafe | src/registry/blob.rs:159-783 | so it is for digests that do not end in ".tmp" |
| BlobFiles.AlwaysVerifiedIff | src/registry/blob.rs:159-783 | and that is exactly the condition, for every hash that is not constant |
| BlobFiles.TempFileIsServed | src/cache/storage.rs:165-169 | what an interrupted download leaves is a hit under the temp name |
| Ranges.ParseOfPrintedRange | src/registry/blob.rs:1046-1059 | a printed Range header is parsed back, for all 64-bit bounds |
| Ranges.RangeIsReadIff | src/registry/blob.rs:1046-1059 | a Range header is read iff it spells one range of 64-bit positions with a first one |
| Ranges.SuffixRangeIsPassedOver | src/registry/blob.rs:1046-1059 | so a suffix range is not |
| Ranges.RangeResponseIsExactSlice | src/cache/storage.rs:408-475 | a range is answered iff it is satisfiable, with the bytes RFC 9110 says it denotes, their length, and a Content-Range the resume check reads back to the same start |
| Ranges.WholeBlobResponse | src/registry/blob.rs:55-101 | without a usable range the whole blob is sent; a missing or empty blob is no hit |
| Ranges.ConsecutiveRangesConcatenate | src/cache/storage.rs:416-450 | consecutive ranges concatenate to the stretch they cover |
| Eviction.KeptPlusFreed | src/cache/storage.rs:1153-1210 | bytes before equal bytes kept plus bytes freed, wherever the loop stops |
| Eviction.EvictionIsShortestOldestPrefix | src/cache/storage.rs:1153-1210 | the files evicted are the removable ones of the shortest prefix, in stable order of age, that frees the target |
| Eviction.EvictedIff | src/cache/storage.rs:1153-1210 | a file is evicted iff there is a limit, it can be removed, and the removable files before it in stable order of age do not make room; with room nothing is |
| Eviction.CapacityAfterWrite | src/cache/storage.rs:479-522 | after a write that gets as far as the eviction, completed or not, the directory is within the limit or holds one file; one that does not changes nothing |
| Eviction.CapacityOverRuns | src/cache/storage.rs:479-522 | so it is over a run from the first such write on, without 64-bit overflow if there is room for one more blob |
| Eviction.WriteBlobFate | src/cache/storage.rs:479-522 | what a write does to each file: those in the way of room go, all others stay, and the blob, or after a failure its temp file, holds what was written |
| Eviction.WriteStreamFate | src/cache/storage.rs:535-621 | the same of a streamed write, which evicts when its temp file is complete |
| Eviction.CopyInClosedForm | src/cache/storage.rs:555-590 | the copied bytes are the pieces before the first that is empty, broken or cut, and what was written of that |
| Eviction.StreamPublishedIff | src/cache/storage.rs:535-621 | a streamed blob of size s with the newest temp file is published iff no step fails and 2s is within the limit; if only the size is to blame everything is evicted |
| Eviction.BlobDirectory.EvictIfNeeded | src/cache/storage.rs:1153-1210 | the loop removes exactly those files, some of which may resist, and nothing when there is room |
| Eviction.BlobDirectory.WriteBlobFile | src/cache/storage.rs:479-522 | create the directory, evict, write the temp file, rename, with any of them failing, leave exactly the specified directory |
| Eviction.BlobDirectory.WriteBlobStream | src/cache/storage.rs:535-621 | the copy loop with reader and writer errors, sync, eviction and rename leave exactly the specified directory and count |
| StableSort.SortIsStable | src/cache/storage.rs:1172-1178 | sorting orders by the key and keeps the listing order among equal keys |
| MirrorStats.ErrorCountIsWorstSuffix | src/registry/mirror_racer.rs:649-675 | the error count is the largest balance of errors over measured successes of any suffix of the history |
| MirrorStats.RttInClosedForm | src/registry/mirror_racer.rs:649-669 | the moving average is the weighted sum of the initial value and all round trips |
| MirrorStats.RttStaysWithin | src/registry/mirror_racer.rs:649-669 | and stays between any bounds on them |
| MirrorStats.ThroughputInClosedForm | src/registry/mirror_racer.rs:649-669 | the throughput is the weighted sum of the measured rates, from zero |
| MirrorStats.SuccessesAreCounted | src/registry/mirror_racer.rs:649-669 | every success is counted, measured or not |
| MirrorStats.SampleCounts | src/registry/mirror_racer.rs:770-793 | what one update does, by what is known of the request |
| MirrorStats.ScoreFallsWithErrors | src/registry/mirror_racer.rs:678-689 | for every reachable average and positive throughput more errors mean a strictly lower score, and an error counts like a second of round trip |
| MirrorStats.ScoreFallsWithTime | src/registry/mirror_racer.rs:678-689 | at one throughput the longer round trip, errors included, scores strictly lower |
| MirrorStats.ScoreIsProportional | src/registry/mirror_racer.rs:678-689 | the score is in proportion to the throughput |
| MirrorStats.UnaskedMirrorsLead | src/registry/mirror_racer.rs:744-758 | a mirror never asked scores 1000, one never measured nothing |
| MirrorStats.UnrankedSelection | src/registry/mirror_racer.rs:721-741 | the other strategies take all mirrors in order, or the first two |
| MirrorStats.EntriesAreHistories | src/registry/mirror_racer.rs:770-793 | each mirror's entry is the history of its own requests |
| MirrorStats.SelectionIsStableTopK | src/registry/mirror_racer.rs:744-767 | the selection is the stable top three: distinct, ranked, ties in configured order, nothing better left out |
| MirrorStats.MirrorSelector.UpdateStats | src/registry/mirror_racer.rs:770-793 | an update changes the named mirror's entry and no other |
| MirrorRace.AnswerIsRight | src/registry/mirror_racer.rs:442-612 | for every completion order the answer is the first 2xx to arrive, else the first 401, else the last response, and none iff no mirror responds |
| MirrorRace.ClassIsScheduleIndependent | src/registry/mirror_racer.rs:442-612 | so the class of the answer returned depends on the outcomes alone |
| MirrorRace.UpdatesAreEarned | src/registry/mirror_racer.rs:460-523 | the updates are those of the answers up to the first 2xx: its measurements, an error for every other response but a 401 |
| MirrorRace.AttributionIff | src/registry/mirror_racer.rs:376-523 | statistics go to the mirrors that answered, for all outcomes and orders, iff the raced list is a prefix of the configured one |
| MirrorRace.AdaptiveAttributionIff | src/registry/mirror_racer.rs:346-376 | for distinct mirrors raced adaptively that is so iff each of the first three scores at least as high as all listed after it |
| MirrorRace.OneErrorMisattributes | src/registry/mirror_racer.rs:346-376 | one error of the first mirror makes the adaptive race lose that |
| MirrorRace.RaceMirrors | src/registry/mirror_racer.rs:313-612 | the race ends, indexes in range, returns that answer and records exactly those updates |
| AuthRetry.MirrorIndexFromRealm | src/registry/manifest.rs:647-672 | the least index of a mirror that owns the realm, or none |
| AuthRetry.OwnsIff | src/registry/manifest.rs:648-668 | for URLs and any lower-casing of the realm, ownership compares the lower-cased host of the realm with the mirror's as configured, or is Docker Hub's; schemes, paths and trailing slashes do not matter |
| AuthRetry.CapitalHostsAreNeverEqual | src/registry/manifest.rs:648-664 | a mirror host with a capital letter never equals a realm's, which is lower-cased |
| AuthRetry.TryOrderIsPermutation | src/registry/blob.rs:300-319 | every mirror is in the order once, the realm's first |
| AuthRetry.OthersInOrder | src/registry/blob.rs:306-311 | the other mirrors keep their order |
| AuthRetry.TriedOnce | src/registry/blob.rs:320-438 | one mirror serves, or is given up for the one reason that applies, by its replies |
| AuthRetry.TokensSent | src/registry/blob.rs:320-438 | a mirror is sent the shared token and, after a 401 that names where to get one, its own |
| AuthRetry.RetryWithAuth | src/registry/blob.rs:320-438 | the winner is the first mirror in order that can serve; one failure with its reason for each before it; the requests sent are exactly those |
| AuthRetry.RetrySucceedsIff | src/registry/blob.rs:320-444 | success iff some mirror serves with the shared or its own token, otherwise all have failed |
| AuthRetry.AskedAtMostTwice | src/registry/blob.rs:320-438 | no mirror is asked more than twice |
| AuthRetry.RetryAfterUnauthorized | src/registry/blob.rs:280-450 | all of this for the order the realm gives |
| StorageKeys.SameLocationIff | src/cache/storage.rs:165-222 | two keys share an object key or path iff they are the same key, or, on the file system, a legacy reference under ".../sha256" spells the digest |
| StorageKeys.PathsAre | src/cache/storage.rs:165-222 | the path of each kind of thing, spelled out |
| StorageKeys.SameNameIff | src/cache/storage.rs:165-222 | two references are kept under one name iff they differ in nothing but ':' and '_' |
| StorageKeys.TempHitsIff | src/cache/storage.rs:499-869 | the temp path of one key is another's path iff both are blobs, or charts of one repository, and the other's name is the first's with the extension "tmp" |
| KeyedStore.WriteLeavesOthersIff | src/cache/storage.rs:650-905 | a write, through its temp file, leaves every other key as it was iff the two share no location and no temp path |
| KeyedStore.ReadsItsOwnLastWrite | src/cache/storage.rs:692-905 | after any interleaving of writes, interrupted writes and deletes a key reads what the last operation on it left, if no key that interferes was used |
| KeyedStore.InterferingKeysLoseWrites | src/cache/storage.rs:650-678 | keys that interfere do overwrite or remove one another |
| KeyedStore.DottedBlobIsLost | src/cache/storage.rs:479-522 | writing a blob "a" removes the blob "a.tmp" |
| KeyedStore.CacheStorage.WriteKey | src/cache/storage.rs:829-905 | a write completed or cut short at any byte does to the store what its log says |
| KeyedStore.CacheStorage.ReadKey | src/cache/storage.rs:808-826 | the store, keyed by location, reads the last write of the key asked for |
| Names.RewrittenIsLeftAlone | src/admission.rs:159-171 | a rewritten image is not rewritten again |
| Names.LeftAloneIff | src/admission.rs:159-171 | an image is left alone iff endpoint or image is empty or it is the endpoint's already |
| Names.EndpointOfUrl | src/admission.rs:173-180 | white space, one scheme and trailing slashes of the endpoint do not matter |
| Names.ReviewIsIdempotent | src/admission.rs:121-157 | the patches rewrite every image that can be rewritten and no other, and a second review asks for nothing |
| Names.PatchedIff | src/admission.rs:134-157 | a patch is asked for iff it puts the rewritten image in the place of an image that can be rewritten |
| Names.CollectContainerPatches | src/admission.rs:134-157 | the loop collects exactly those patches behind the ones before |
| Names.NormalizedSpellsMeaning | src/admission.rs:182-203 | a normalised name spells the registry and repository the name stands for |
| Names.DockerConventions | src/admission.rs:182-203 | which names are Docker Hub's, which name a registry, and which repositories are official |
| Names.NormalizeKeepsSuffix | src/admission.rs:182-203 | a tag or digest goes through normalisation unchanged |
| Names.ParseUndoesPrintIff | src/prepull.rs:470-492 | pre-pull reads back what the server prints, with the exact condition for every name and reference |
| Names.UntaggedIff | src/prepull.rs:470-492 | an image is read as untagged, and so as the latest, iff it has no '@' and no colon but one taken for a port |
| Names.PrePullReadsProxy | src/prepull.rs:496-522 | names under the proxy are read as those of registry.k8s.io, or for Rancher's of Docker Hub |
| Names.ParsersAgreeIff | src/prepull.rs:496-522 | the two repository parsers agree exactly on the names stated |
| Names.ManifestPathIsSplit | src/server.rs:58-86 | the path of a manifest request, `/v2/` doubled or not, is split into its name and reference |
| Names.NotFoundIff | src/server.rs:58-160 | a path is not found iff it is for neither a manifest nor a blob |
| Names.BlobPathIsSplitIff | src/server.rs:150-155 | the path of a blob request is split correctly iff no component of the name is "manifests" |
| Names.RewritingPreservesMeaningIff | src/admission.rs:159-203 | rewrite, request, split and parse yield what the image stands for iff its registry has a dot or its repository a slash |
| EventLog.PullEventLog.Push | src/registry/manifest.rs:106-115 | the second step of a record keeps the buffer the last events pushed, numbers distinct and all accounted for |
| EventLog.PullEventLog.After | src/registry/manifest.rs:117-125 | a poll returns the buffered events beyond the cursor |
| EventLog.PullEventLog.LatestSequence | src/registry/manifest.rs:135-137 | no pushed event is beyond the latest, which counts the pushed and the pending |
| EventLog.PushInTurn | src/registry/manifest.rs:106-115 | recorders that push in allocation order keep the log gap-free |
| EventLog.BufferIsContiguous | src/registry/manifest.rs:106-115 | then the buffer holds consecutive numbers up to the last |
| EventLog.PollIsExactIff | src/registry/manifest.rs:117-125 | for any push order, a client that saw the first m gets exactly the pushes since iff they fit the log and all have higher numbers |
| EventLog.ClientSeesEachEventOnceIff | src/registry/manifest.rs:117-125 | in allocation order, a polling client sees every event once and in order iff no more are pushed between polls than fit |
| EventLog.OutOfOrderIsMissed | src/registry/manifest.rs:106-125 | out of order an event still in the log is missed, or seen twice |
| EventLog.PullMetrics.Increment | src/registry/manifest.rs:160-177 | each counter is the number of records with its key, and all sum to the records |
| EventLog.CountedTogetherIff | src/registry/manifest.rs:160-177 | two records share a counter iff their labels are the same, a missing one being "-" and spaces in a status underscores |
| Manifests.ListsAreIndexes | src/prepull.rs:263-268 | what the handler takes for a list pre-pull does too, and not conversely |
| Manifests.StandardMediaTypes | src/registry/manifest.rs:908-945 | of the media types in use, which are lists, which manifests, and which schema 1 to both sides |
| Manifests.HandlerTakes | src/registry/manifest.rs:803-827 | the handler takes the first entry for the host, else the first |
| Manifests.PrePullTakes | src/prepull.rs:295-328 | pre-pull takes the first digest for the host, else the first digest |
| Manifests.ChoicesAgreeIff | src/prepull.rs:288-328 | pre-pull and the handler choose the same platform digest iff the handler's entry has one or no entry has |
| Manifests.SelectDigest | src/prepull.rs:295-328 | pre-pull's search finds the first target with a digest, else the first digest |
| Manifests.SelectEntry | src/registry/manifest.rs:803-827 | the handler's search finds the first target, else the first entry |
| Manifests.ExtractedAreNamed | src/prepull.rs:727-827 | for a single manifest the digests extracted are those of all layers and the config; it fails iff there are none |
| Manifests.IndexDigestsAre | src/prepull.rs:727-827 | of a list the first digest is extracted, and the first for linux/amd64 behind it |
| Manifests.ExtractLayerDigests | src/prepull.rs:727-827 | the passes over list, layers and config extract exactly the specified digests |
| ImageCache.GetManifestKeeps | src/registry/manifest.rs:716-1500 | with failing reads and writes, a GET keeps the registry's content, all manifests by digest and blobs, and the mapping of a served tag unless it cannot read one of the keys it is served from, and upstream has moved the tag or the write is cut short |
| ImageCache.HeadManifestKeeps | src/registry/manifest.rs:1566-1931 | so does a HEAD |
| ImageCache.HeadAgreesIff | src/registry/manifest.rs:1566-1660 | HEAD gives the digest GET does, from the cache, iff the manifest found is not a list that resolves |
| ImageCache.TagKeptIff | src/registry/manifest.rs:808-1420 | a GET keeps a served tag's mapping iff its reads see it, or nothing is stored, or what the write leaves is the mapped digest |
| ImageCache.FailedReadMovesTag | src/cache/storage.rs:702-732 | one failed read of the mapping, with the tag moved upstream, replaces what is found under the tag |
| ImageCache.KeptIsServed | src/registry/manifest.rs:908-1010 | a reference served keeps being served the same |
| Answers.MissIsAnswered | src/registry/manifest.rs:1110-1500 | on a miss the answer is the final response: its body and headers, its status if it is no 2xx, and 502 otherwise; nothing is cached unless a body is sent |
| Answers.HitIsAnswered | src/registry/manifest.rs:908-1030 | what is answered from the cache, and with what body, digest and type |
| Answers.GivenAgain | src/registry/manifest.rs:716-1500 | what a GET was given on a miss a later GET is given from the cache; of a tagged list, the platform's manifest if cached |
| Answers.HeadIsAnswered | src/registry/manifest.rs:1566-1931 | the headers of HEAD on a hit and on a miss |
| PrePull.FetchedIsFoundIff | src/prepull.rs:525-724 | after a fetch that succeeds, however its writes end, the handler finds what was fetched iff it was cached and not a stale legacy copy, or the writes, done, lost or cut short, leave the reference leading to it |
| PrePull.FaultlessFetchIsFoundIff | src/prepull.rs:525-724 | without write faults, iff it was not a legacy copy without a mapping or older than a manifest that could not be read |
| Answers.FetchSucceedsIff | src/prepull.rs:525-724 | a fetch succeeds iff the manifest is found or upstream delivers it, at once or after a 401 with a token |
| Answers.FetchFailureSays | src/prepull.rs:572-680 | and its error says what went wrong |
| Answers.BlobSucceedsIff | src/prepull.rs:830-1037 | a blob pull succeeds iff it is cached or one of three attempts delivers it, and writes what the first of these delivers |
| PrePull.PulledBlobHitIff | src/prepull.rs:830-1037 | a pulled blob is a hit iff it was one or its write did not fail, for every pattern of attempts |
| PrePull.PulledBlobsHit | src/prepull.rs:401-460 | with no layer failed and no write fault every digest pulled is a hit |
| PrePull.PullKeeps | src/prepull.rs:230-467 | a pull, successful or not, with failing reads and writes, keeps manifests, blobs and the mapping of a served tag that its two fetches spare |
| Answers.PullSucceedsIff | src/prepull.rs:230-467 | when a pull succeeds and with which manifests, from what is cached and what upstream answers |
| Answers.PulledSize | src/prepull.rs:401-467 | the size reported is that of the registry's content of every digest pulled |
| Answers.LayersFailureSays | src/prepull.rs:330-460 | otherwise there is no JSON, nothing to pull, or that many blobs are not served |
| PrePull.PullIsAnswered | src/prepull.rs:230-467 | after a fault-free pull the handler's answer is exactly determined, the platform's manifest is cached under its digest, and all blobs are hits |
| Closure.CommittedIsContent | src/registry/blob.rs:159-783 | what a GET of a blob commits is the registry's content for the digest, whatever upstream sends, if only that content has the digest |
| Closure.RunKeeps | src/registry/manifest.rs:716-1931 | over runs of pulls, GETs, HEADs and downloads, one at a time, with failing reads and writes, no manifest or blob is lost and a reference that is spared stays served the same |
| Closure.PulledImagesStayServable | src/prepull.rs:230-467 | after every run before, with whatever faults, an image pulled without a write fault and not from a stale legacy copy is served without upstream, whatever upstream would answer, with every blob's right content, and after every sparing run |
| Closure.FaultFreeRunsLeaveNothingStale | src/prepull.rs:525-571 | after runs without write faults no legacy copy is stale |
| Closure.FailedDigestWriteIsHidden | src/prepull.rs:682-721 | one failed write makes every later pull succeed from the legacy copy while the handler never finds the manifest |
| CacheWrites.GetIsItsWrites | src/registry/manifest.rs:1355-1420 | a GET is its lookup and then the writes by digest and of the mapping, in this order |
| CacheWrites.FetchIsItsWrites | src/prepull.rs:679-721 | so is a fetch, with the legacy copy written last |
| CacheWrites.BlobIsItsWrites | src/prepull.rs:830-1037 | the pull of a blob is its lookup and at most one write, with success iff the blob was found or sent |
| Interleaving.InterleavingsKeep | src/registry/manifest.rs:716-1931 | in any interleaving of lookups and single writes no manifest by digest or blob is lost, and a served reference stays served the same if no operation under way or begun later maps it elsewhere |
| Interleaving.UnmovedSettles | src/registry/manifest.rs:1378-1420 | none does if none finds the tag moved upstream or is cut short writing its mapping |
| Interleaving.SparingSettles | src/registry/manifest.rs:808-1420 | nor if those that would can read what is cached |
| Interleaving.OvertakenFillMovesTagBack | src/registry/manifest.rs:1355-1420 | of two overlapping GETs of a tag that moves, the older may write last and replace what is served |
| OverlappingPulls.OverlappingPullsStayServable | src/prepull.rs:230-467 | an image reported by a pull that overlaps with anything, its blobs pulled concurrently, is servable without upstream from then on, as long as its tag is not mapped elsewhere |
| SequentialRuns.PullAlone | src/prepull.rs:230-467 | a pull whose steps nothing interrupts changes the cache and answers as the sequential definition says |
| SequentialRuns.RunIsAPlay | src/prepull.rs:230-467 | a run of operations one at a time is the interleaving that begins them in order and ends each |
| Refinement.PlayIsStored | src/cache/storage.rs:692-905 | in any interleaving, on either backend, the writes it performs, done, lost or cut short, in their order, leave at the location of every proper key exactly what the cache holds |
| Refinement.RunIsStored | src/cache/storage.rs:692-905 | for operations one at a time that is the cache of the run |
| ImageService.SharedCache.Get | src/registry/manifest.rs:716-1500 | the handler's steps do to the cache and answer what the specification says |
| ImageService.SharedCache.PullBlob | src/prepull.rs:830-885 | the cache lookup and the loop of three attempts do what the specification says |
| ImageService.SharedCache.Pull | src/prepull.rs:230-467 | the whole pull does what the specification says |

## Left out

- Real concurrency on one temp file: `get_blob` and `write_blob` for one digest run one at a time here; no safety is claimed without that.
- Interleaving.InterleavingsKeep: each lookup and each single write is one step, because the store below it writes a key in one operation; two writes of one key at the same moment, which share its temp file or the file itself, are taken one after the other.
- BlobFiles.StoreRunsAreSafe: runs of GETs only, because `write_blob`, which pre-pull uses, does not check the hash of what it writes.
- BlobDownload.RunsAreSafe: one digest whose temp file and blob are two files, because all digests together are the subject of BlobFiles.StoreRunsAreSafe.
- BlobDownload.CommittedBytesSafeIff: assumes that only one byte string hashes to the digest, because otherwise a wrong blob may hash right by accident; no other result needs it.
- Closure.PulledImagesStayServable: an unlimited cache, so no eviction, because a limit may evict what was pulled; schema 1 images, lists of lists and lists in media types the handler does not know are outside it, as the answers they get are stated by PrePull.PullIsAnswered.
- Within one operation a key is readable or not: a read that fails at first and succeeds later in the same lookup is not modelled.
- PrePull.PulledBlobsHit: the blobs one after another in any order, because their overlapping pulls are the subject of OverlappingPulls.
- Manifest digests are not checked against the body by the program; honest upstreams are a hypothesis here.
- `race_mirrors_hedged`, and a race without a selector, which records no statistics.
- MirrorStats: reals for floating point, unbounded counters, and no timestamps of the last error and success.
- Fetching and caching of tokens: whether a token is obtained is a parameter.
- SingleFlight: cancelled callers and downloads that never return.
- BlobDownload.HasherMatchesFile: rests on `write_all` reporting a failed write at its own chunk; `tokio::fs::File` writes behind, so an accepted chunk may fail later, and `sync_all` does not return that error.
- Durability: `sync_all` is a step that may fail, with no notion of what a crash loses; directories are not synced.
- BlobDownload: 64-bit wrap-around of the byte counter.
- A streamed commit (`commit_blob_from_temp`) never evicts, so no limit is claimed for it.
- StorageKeys: "." and ".." in paths, a file standing where a directory is needed, and the path normalisation of the object store client.
- Names: an empty name in a `/v2/` path is only recorded as out of bounds; the three container lists of a pod are reviewed one at a time.
- HEAD of blobs, Helm charts, TLS, DNS, configuration, logging, server start-up and the Prometheus text.
