# Bronze bundles, proved

A Dafny model of how the evidence cartographer acquires a Met snapshot and commits it to the Bronze object store, with
proofs of what that protocol guarantees. `dafny verify dfyconfig.toml` checks all of it (Dafny 4.11). No proof
rests on automatic induction: the lemmas to which Dafny would apply it are marked `{:induction false}`.

The model has four parts.

**The commit protocol.** `Protocol` describes any number of concurrent `store_bundle` runs against one create-only
object store as a transition system. Each run probes its three keys and then performs three create-only PUTs (artifact,
evidence, `_SUCCESS.json`), each with bounded retries and reconciliation by HEAD. The environment interleaves runs
arbitrarily, delays, applies or loses requests after the sender has given up on them, lets other programs create
objects, and stops runs anywhere. What is assumed of the store is in the guards: objects are never overwritten or
deleted; 200 and 204 mean that this request created the object; 412 (section 15.5.13 of RFC 9110) means that the key is
taken and not by this request; these meanings are written out apart from the client's own sets of codes; no response, 500, 502, 503 and 504 leave the request pending; other statuses mean that
it is never applied; HEAD never invents an object but may fail or miss one. The number of attempts and the size ceiling
are parameters. SHA-256 is an arbitrary function, and a lemma that needs it to have no collisions says so
(`InjectiveHash`). `ProtocolInvariant` holds the invariant, `ProtocolTheorems` what follows from it for every sequence
of events, `CallLog` what each call was answered and that the answers alone decide where it stands, and
`ProtocolFailures` what can and cannot be said of failed runs.

**The code that runs it.** `ConditionalClient` and `BronzeStore` are the imperative methods of the client and of the
store, written over a shared mutable `ObjectStore` and proved to take exactly the steps of the protocol, so every
theorem about reachable states is a theorem about them.

**The Met source.** `MetDownload` is the download over a small file system in which every operation may fail;
`MetContract`, `MetCsv` and `MetAccounting` are the row contract, the single-pass reader with its set of seen IDs, and
what the whole sequence of its results says; `MetService` puts download, reader and store together, and
`StoredBundle` says what a reader of the stored objects finds.

**The codecs.** `Json`, `JsonMembers`, `Utf8`, `Decimals`, `Ndjson` and `BronzeJson` are canonical JSON (strings as in
section 7 of RFC 8259, bytes as in section 3 of RFC 3629) with a parser that undoes it, and the line format of the
evidence manifest; `BundleText` says what lines and marker mean to a reader who knows only the names of their members.
`ObjectKeys` builds and reads object keys.

Where the documentation and the code disagree: `docs/architecture.md:30-32` says that a failed partial run remains
uncommitted. The code cannot promise that: the last PUT may be applied while its answer, and the HEAD after it, are
lost. `ProtocolFailures.FailedRunMayBeCommitted` constructs the behaviour for every job. The condition is the guard of
the code, conditional_object_client.py:145 and :194: a run whose marker PUT was given up may be committed if and only
if that PUT had an ambiguous answer (`ProtocolFailures.FailureMayCommitExactlyAfterDoubt` for every record of answers,
`ProtocolFailures.GivenUpRunMayBeCommittedExactlyAfterDoubt` for every run); all other failures that reach the caller leave no marker (`ProtocolFailures.VisibleFailuresStayUncommitted`). A process that dies inside its
marker PUT is not a failure that reaches a caller.

A second limit of the code: reconciliation believes the size and hash that an object's creator declared in its
metadata, so another program can make a run return normally over other bytes
(`StoredBundle.SuccessMayCoverOtherBytes`). Objects that runs create are always declared truthfully
(`ProtocolTheorems.TruthfulMetadata`), so a bundle holds the intended bytes whenever no other program declares a false
hash for what it writes to the bundle's keys (`StoredBundle.HonestBundleReconciles`).

## Model

| member | source | states |
|---|---|---|
| ProtocolInvariant.StepKeeps | src/evidence_cartographer/infrastructure/conditional_object_client.py:132-220 | every event of the system keeps the invariant: while no attempt was ambiguous no earlier attempt of the call has been or will be applied; requests and objects are those their runs issued; finished calls have their objects in place |
| ProtocolInvariant.RunKeeps | src/evidence_cartographer/infrastructure/conditional_object_client.py:132-220 | the invariant holds after every sequence of events |
| ProtocolTheorems.CommitMarkerSafety | src/evidence_cartographer/infrastructure/minio_bronze.py:73-152 | in every reachable state of any number of runs, the bytes of a `_SUCCESS.json` written by a run encode a manifest, and the artifact and evidence it names are in the store beside it with exactly the sizes and hashes listed |
| StoredBundle.MarkersAreReadable | src/evidence_cartographer/infrastructure/minio_bronze.py:129-145 | the marker's text, parsed, names an artifact and an evidence object that are in the store beside it, by URI, size and declared hash |
| ProtocolTheorems.ReachedInOrder | src/evidence_cartographer/infrastructure/minio_bronze.py:101-145 | no PUT call of a run begins before the calls ahead of it have succeeded |
| ProtocolTheorems.AllKeysProbedFirst | src/evidence_cartographer/infrastructure/minio_bronze.py:180-187 | in every behaviour, before a run begins its first PUT a HEAD of its own on each of its three keys has found nothing |
| ProtocolTheorems.SeenStops | src/evidence_cartographer/infrastructure/minio_bronze.py:180-187 | a run that sees an object at a key it probes stops for good and never has a request or an object in the store |
| ProtocolTheorems.Agreement | src/evidence_cartographer/infrastructure/minio_bronze.py:146-152 | two successful runs with the same keys return the same receipt, even if they raced and succeeded by reconciliation |
| ProtocolTheorems.AgreementByHash | src/evidence_cartographer/infrastructure/minio_bronze.py:101-152 | with a collision-free hash, two successful runs that share evidence and marker keys committed the same manifest, artifact bytes, extension and evidence |
| ProtocolTheorems.CollisionsAreGenuine | src/evidence_cartographer/infrastructure/conditional_object_client.py:169-189 | a run that stopped on a collision did not create the object at that key in any attempt of the call, and never will |
| ProtocolTheorems.SuccessIsForever | src/evidence_cartographer/infrastructure/conditional_object_client.py:157-168 | after a call has returned normally its key holds, now and after any further events, an object of the intended length, declared length and hash |
| ProtocolTheorems.TruthfulMetadata | src/evidence_cartographer/infrastructure/conditional_object_client.py:132-144 | any object created by any attempt of any run declares the length and hash of its own bytes |
| ProtocolTheorems.AttemptsAreBounded | src/evidence_cartographer/infrastructure/conditional_object_client.py:134-220 | in every behaviour a call sends at most N PUTs and at most N HEADs |
| ProtocolTheorems.AttemptsSendTheSameBytes | src/evidence_cartographer/infrastructure/conditional_object_client.py:132-144 | all requests and objects of one PUT call of a run, at whatever times, have the same key and bytes (the rewinding that makes the loop send them is in PutObjectIfAbsent) |
| ProtocolTheorems.NothingBeyondFailure | src/evidence_cartographer/infrastructure/minio_bronze.py:124-145 | a failed run never has a request in flight or an object for a PUT call it had not begun |
| PutMachine.CallMeaning | src/evidence_cartographer/infrastructure/conditional_object_client.py:134-220 | for every N and every record of responses and HEADs: exactly when the call has succeeded, exactly when it has collided, and exactly when it has given up after n attempts |
| PutMachine.FirstAnswer | src/evidence_cartographer/infrastructure/conditional_object_client.py:169-220 | what the first answer leads to, status by status: 200 and 204 success, 412 a collision, no response, 500, 502, 503 and 504 a HEAD, 409 another attempt if there is one, all else giving up |
| CallLog.FindingMeaning | src/evidence_cartographer/infrastructure/conditional_object_client.py:222-241 | a HEAD matches exactly when length, declared size and declared hash are the intended ones, conflicts exactly when it shows anything else, and is absent or unreadable exactly when it says so |
| CallLog.LogIsRecord | src/evidence_cartographer/infrastructure/conditional_object_client.py:145-203 | in every behaviour a call looks at its key only after an ambiguous answer, or a 412 in doubt |
| CallLog.CallsObey | src/evidence_cartographer/infrastructure/conditional_object_client.py:134-220 | in every behaviour each PUT call of each run is under way, has succeeded, collided or given up exactly as CallMeaning says of the answers it was given |
| ProtocolFailures.FailureMayCommitExactlyAfterDoubt | src/evidence_cartographer/infrastructure/conditional_object_client.py:145-220 | for every job and every record of answers on which the marker PUT gives up: a run that failed after exactly these answers can be found committed, then or later, if and only if one of the answers was ambiguous |
| ProtocolFailures.GivenUpRunMayBeCommittedExactlyAfterDoubt | src/evidence_cartographer/infrastructure/conditional_object_client.py:145-220 | for every run in every behaviour whose marker PUT was given up: among the behaviours with the same plan and the same answers one ends with its marker in place if and only if one of these answers was ambiguous |
| ProtocolFailures.FailedRunsCommitExactlyWhen | src/evidence_cartographer/infrastructure/minio_bronze.py:139-145 | the same question in terms of the store: a failed run is found committed in some future if and only if its marker is there already or a marker PUT of it is in flight towards a free key |
| ProtocolFailures.VisibleFailuresStayUncommitted | src/evidence_cartographer/infrastructure/minio_bronze.py:97-145 | a run that failed before its marker PUT began, because that PUT collided, or after definite answers only, never has a marker of its own |
| ProtocolFailures.FailedRunMayBeCommitted | docs/architecture.md:30-32 | counterexample to the documented promise: for every job within the ceiling there is a behaviour that ends in an error with the marker in place |
| ObjectClient.ObjectStore.StatObject | src/evidence_cartographer/infrastructure/conditional_object_client.py:101-115 | HEAD reports size and declared metadata of the object that is there, after any activity of others |
| ObjectClient.ObjectStore.SendOnce | src/evidence_cartographer/infrastructure/conditional_object_client.py:243-297 | one attempt sends what is left in the stream with length and hash, may leave the stream anywhere, and takes the protocol's step for its response |
| ConditionalClient.MinioConditionalObjectClient.PutObjectIfAbsent | src/evidence_cartographer/infrastructure/conditional_object_client.py:117-220 | the retry loop rewinds before each attempt, never falls off its end, returns normally only with the intended object in place, reports a collision only with an object that is not of its making, leaves the run where the protocol says, and its outcome is the one CallMeaning gives for the answers it received |
| ConditionalClient.MinioConditionalObjectClient.Attempt | src/evidence_cartographer/infrastructure/conditional_object_client.py:135-220 | one attempt ends the call or leads to the next within the bound, with the doubt it leaves behind, whatever the transport consumed of the stream before |
| ConditionalClient.MinioConditionalObjectClient.ReconcileObject | src/evidence_cartographer/infrastructure/conditional_object_client.py:222-241 | the comparison of HEAD with the intended object decides the protocol's next step |
| ConditionalClient.OutcomeDelivered | src/evidence_cartographer/infrastructure/conditional_object_client.py:145-220 | what each way of leaving the call tells its caller about the store |
| BronzeStore.MinioBronzeArtifactStore.SnapshotArtifact | src/evidence_cartographer/infrastructure/minio_bronze.py:154-178 | however the file is cut into chunks: size error exactly when it exceeds the ceiling, hash error exactly on a mismatch, otherwise the whole bytes, length and digest; never more staged than the ceiling |
| BronzeStore.MinioBronzeArtifactStore.AssertBundleAbsent | src/evidence_cartographer/infrastructure/minio_bronze.py:180-198 | passes only after HEADs on the artifact, the evidence and the completion key have each found nothing; ObjectAlreadyExists exactly when one sees an object, ObjectStoreError exactly when one fails |
| BronzeStore.MinioBronzeArtifactStore.PutIfAbsent | src/evidence_cartographer/infrastructure/minio_bronze.py:287-315 | size error exactly above the ceiling; otherwise success, ObjectAlreadyExists or ObjectStoreError exactly as the answers amount to, and ObjectAlreadyExists only when another writer has the key |
| BronzeStore.MinioBronzeArtifactStore.StageLines | src/evidence_cartographer/infrastructure/minio_bronze.py:220-234 | succeeds exactly when every item is valid and the whole payload fits; then payload, total and counts are the whole-sequence values |
| BronzeStore.MinioBronzeArtifactStore.StageItems | src/evidence_cartographer/infrastructure/minio_bronze.py:206-257 | for valid items the size error exactly when the whole payload exceeds the ceiling, and otherwise the result or the error of the way the iterator ended |
| BronzeStore.MinioBronzeArtifactStore.WriteEvidence | src/evidence_cartographer/infrastructure/minio_bronze.py:200-266 | an invalid item or a failing iterator leaves the run with no evidence or marker PUT begun; for valid items the size error comes exactly when the payload exceeds the ceiling; a staging error only after an OSError of the iterator; success stores the payload and returns its size, digest, total and counts |
| BronzeStore.MinioBronzeArtifactStore.StoreBundle | src/evidence_cartographer/infrastructure/minio_bronze.py:73-152 | returns normally only with all three objects of its plan committed and their receipt; refuses a missing, unsafe, oversized, unreadable or mismatching artifact before any store request, each with its own error; every later failure is reported as the run's own, and with valid, exhausted evidence and a manifest that fit it can only come from the store |
| Bronze.TallyTotal | src/evidence_cartographer/infrastructure/minio_bronze.py:206-233 | the per-outcome counts of any evidence sum to the number of records |
| ObjectKeys.ArtifactKeyDecodes | src/evidence_cartographer/infrastructure/object_keys.py:27-35 | reading an artifact key from the right recovers normalized prefix, source, UTC date, run and extension |
| ObjectKeys.KeysNeverCoincide | src/evidence_cartographer/infrastructure/object_keys.py:33-37 | the three keys of a bundle are distinct, and keys of two bundles are equal exactly when the bundles (and extensions) are |
| ObjectKeys.KeysForSafePrefixes | src/evidence_cartographer/infrastructure/object_keys.py:18-25 | there are keys exactly for prefixes that are, end slashes aside, a slash-joined path of proper names |
| Basics.StripMeaning | src/evidence_cartographer/infrastructure/object_keys.py:18-18 | what stripping leaves is the middle of the text: everything around it is dropped and neither end of it is, so stripping again changes nothing |
| Basics.StripIsMiddle | src/evidence_cartographer/sources/met/contract.py:151-151 | stripping gives a text exactly when it stands there with only characters to drop around it |
| ObjectKeys.OneMarkerKey | src/evidence_cartographer/infrastructure/object_keys.py:33-37 | of a bundle's keys only the completion key has the marker's name, and all three are in one directory |
| ObjectKeys.KeyLayout | src/evidence_cartographer/infrastructure/object_keys.py:27-37 | the three keys written out: the prefix without end slashes, the source's word, year, two-digit month and day of the UTC date, run and object name |
| Bronze.NormalizeExtensionIdempotent | src/evidence_cartographer/application/bronze.py:45-51 | every validated suffix is safe and validating it again changes nothing |
| Bronze.NormalizeExtensionMeaning | src/evidence_cartographer/application/bronze.py:45-51 | the result is the given text without one leading dot in small letters, and it is refused exactly when that is not a safe suffix of at most 32 characters |
| Bronze.SafeExtensionMeaning | src/evidence_cartographer/application/bronze.py:22-22 | the pattern matches exactly words of letters and digits with single separators between them |
| JsonTheorems.CanonicalRoundTrip | src/evidence_cartographer/infrastructure/minio_bronze.py:321-327 | the parser undoes canonical JSON, up to the order of keys, for every value |
| JsonTheorems.CanonicalIgnoresKeyOrder | src/evidence_cartographer/infrastructure/minio_bronze.py:321-327 | two values have the same canonical bytes if and only if they are equal up to the order of keys at every depth |
| JsonTheorems.SortFieldsSorted | src/evidence_cartographer/infrastructure/minio_bronze.py:326-326 | keys come out sorted, with the same fields |
| JsonTheorems.CanonicalHasNoNewline | src/evidence_cartographer/infrastructure/minio_bronze.py:222-222 | canonical bytes are not empty and contain no 0x0A |
| Utf8.DecodeEncode | src/evidence_cartographer/infrastructure/minio_bronze.py:327-327 | decoding undoes encoding |
| BronzeJson.EvidenceLineInjective | src/evidence_cartographer/application/bronze.py:54-56 | different records of evidence are written as different lines |
| BronzeJson.EncodeManifestInjective | src/evidence_cartographer/application/bronze.py:71-81 | the bytes of a completion manifest determine every field |
| Ndjson.PayloadRoundTrip | src/evidence_cartographer/infrastructure/minio_bronze.py:220-233 | splitting the evidence manifest at 0x0A and parsing each line gives back the evidence, one line a record, in order |
| Ndjson.PayloadInjective | src/evidence_cartographer/infrastructure/minio_bronze.py:220-233 | the bytes of the evidence manifest determine the sequence of records |
| JsonMembers.MemberOfNormalized | src/evidence_cartographer/infrastructure/minio_bronze.py:326-326 | sorting keys at every depth does not change what is found under them |
| Json.EscapeMeaning | src/evidence_cartographer/infrastructure/minio_bronze.py:322-327 | quotes, backslashes and control characters are escaped, each in its one way, and no other character is |
| Json.TextLeMeaning | src/evidence_cartographer/infrastructure/minio_bronze.py:326-326 | keys are ordered by the first place where they differ, a prefix first |
| JsonTheorems.Example | src/evidence_cartographer/infrastructure/minio_bronze.py:321-327 | one dict and its text, to the character |
| BundleText.RecordSaid | src/evidence_cartographer/application/bronze.py:54-56 | every member of a record's line, found by its name in the parsed line, has the record's value; outcomes, sources, statuses and modes are the words themselves |
| BundleText.ManifestSaid | src/evidence_cartographer/application/bronze.py:71-81 | every member of a marker, found by its name in the parsed text, has the manifest's value |
| BundleText.PayloadSays | src/evidence_cartographer/infrastructure/minio_bronze.py:220-233 | splitting the evidence manifest at 0x0A gives one line a record, in order, that says everything about it, and counting the lines by the outcome they say gives the counts kept while writing |
| Ndjson.PayloadEndsLine | src/evidence_cartographer/infrastructure/minio_bronze.py:222-222 | the last line too is ended by 0x0A |
| MetContract.ObjectIdMeaning | src/evidence_cartographer/sources/met/contract.py:147-154 | a cell is read as the positive number n exactly when its text writes n, with spaces around, an optional plus sign and leading zeros |
| MetContract.ParsePrintedId | src/evidence_cartographer/sources/met/csv.py:113-118 | the printed form of a positive ID parses to that ID |
| MetContract.VerdictMeaning | src/evidence_cartographer/sources/met/contract.py:157-216 | quarantined exactly without a positive ID, accepted exactly with no message and with every recommended value, flag and date in order, never rejected |
| MetContract.VerdictInWords | src/evidence_cartographer/sources/met/contract.py:158-216 | the whole result from the row: the message on a missing ID, or the warnings that are due, named and in order, which decide the outcome |
| MetContract.PublicDomainMeaning | src/evidence_cartographer/sources/met/contract.py:183-187 | the flag is in order exactly when it says true or false in letters of any case with spaces around |
| MetContract.ReplaceZMeaning | src/evidence_cartographer/sources/met/contract.py:199-199 | every Z is replaced by an offset and nothing else is |
| MetContract.WarningsMeaning | src/evidence_cartographer/sources/met/contract.py:171-207 | a row with an ID is warned of exactly its blank recommended values, its unreadable flag and its unreadable date |
| MetContract.MetRowContract.Validate | src/evidence_cartographer/sources/met/contract.py:158-216 | the message-collecting loop computes the verdict |
| MetCsv.MetCsvEvidenceReader.EvidenceForRow | src/evidence_cartographer/sources/met/csv.py:106-163 | one row's evidence from the IDs seen before it, to which exactly its positive ID is added |
| MetCsv.MetCsvEvidenceReader.IterEvidence | src/evidence_cartographer/sources/met/csv.py:55-104 | for every cutting of the rows into batches the items are those of the row-by-row specification, one a row, in order |
| MetAccounting.RecordIdentity | src/evidence_cartographer/sources/met/csv.py:113-118 | a record's ID is its row's Object ID in plain digits, or else the run's ID, ":row:" and the row's number in the file |
| MetAccounting.RecordFields | src/evidence_cartographer/sources/met/csv.py:140-163 | every other field of a record, from the context, the row and the UUID drawn for it |
| MetAccounting.RepeatsAndResults | src/evidence_cartographer/sources/met/csv.py:124-138 | a repeated ID is rejected with its one message; every other row gets the contract's result |
| MetAccounting.OutcomeMeaning | src/evidence_cartographer/sources/met/csv.py:124-141 | a row is rejected exactly when an earlier row has the same parsed ID, quarantined exactly when it has none |
| MetAccounting.DedupAccounting | src/evidence_cartographer/sources/met/csv.py:106-141 | for every row sequence: accepted with or without warnings are as many as the distinct positive IDs, quarantined as many as the rows without one, rejected the rest |
| MetAccounting.IdentityUniqueness | src/evidence_cartographer/sources/met/csv.py:113-118 | among records that are not rejected no two have the same source record ID |
| MetDownload.MetSnapshotDownloader.CopyBody | src/evidence_cartographer/sources/met/download.py:182-192 | size error exactly when the body exceeds the ceiling; otherwise the part file, size and digest are those of the whole body |
| MetDownload.MetSnapshotDownloader.Attempt | src/evidence_cartographer/sources/met/download.py:150-213 | the target changes only to a complete 200 body; a body that is not as long as the last Content-Length header says (section 8.6 of RFC 9110), or any body when that header is no length, is an integrity failure and is not put in place; when the directory works, the result is exactly the one the exchange leads to; a result tells the exchange's URLs, media type, validators, size, digest and time |
| MetDownload.HeaderMeaning | src/evidence_cartographer/sources/met/download.py:229-230 | a header is the last of its name in letters of any case |
| MetDownload.ContentLengthMeaning | src/evidence_cartographer/sources/met/download.py:233-245 | Content-Length is n exactly when the last header of that name writes n, invalid exactly when it writes no such number |
| MetDownload.CompleteMeaning | src/evidence_cartographer/sources/met/download.py:181-199 | a complete body in the words of status, body and headers |
| MetDownload.FailureMeaning | src/evidence_cartographer/sources/met/download.py:161-199 | which exchange is retryable, terminal, too long, lacking integrity, or good: by its status codes, its length and its headers |
| MetDownload.MetSnapshotDownloader.Run | src/evidence_cartographer/sources/met/download.py:104-148 | at every moment the target is the initial one or a complete body; however the run ends the part file is gone unless an unlink failed; attempts, questions and RETRY answers add up; the loop never ends without a result |
| MetDownload.MetSnapshotDownloader.Download | src/evidence_cartographer/sources/met/download.py:86-94 | an unconditional download that returns has put the complete, hashed body in place, as long as the headers say; while the directory works it fails only when its last exchange does |
| MetService.ReaderStoreCompatible | src/evidence_cartographer/infrastructure/minio_bronze.py:268-285 | for every sequence of rows the store's four checks accept the reader's items exactly when the context names the artifact's source, run and contract version (or there are no rows) |
| MetService.MetSnapshotIngestionService.CountedEvidence | src/evidence_cartographer/sources/met/service.py:116-128 | the service's own count of the items it passes on is their tally |
| MetService.MetSnapshotIngestionService.Run | src/evidence_cartographer/sources/met/service.py:86-148 | a returned result agrees with the committed manifest in total, counts, artifact hash and size, and every record names the stored artifact's URI and hash; artifact, evidence context and result are those of this run and of one download; a run that does not get to the store leaves it alone; hash, evidence and staging errors never come from the service's own input, unless its scanner fails |
| StoredBundle.StoredBytesAreIntended | src/evidence_cartographer/infrastructure/conditional_object_client.py:235-241 | with a collision-free hash, success means the intended bytes exactly when the three stored objects were declared truthfully |
| StoredBundle.SuccessMayCoverOtherBytes | src/evidence_cartographer/infrastructure/conditional_object_client.py:235-241 | counterexample to "success means the intended bytes": for every bundle and all other bytes of the artifact's length there is a behaviour in which the run returns normally while another program's bytes are at the artifact's key |
| StoredBundle.StoredBundleReconciles | src/evidence_cartographer/sources/met/service.py:130-148 | end to end, at any later time: the three objects are there, and if runs created them the artifact is the download, the marker's members give URI, size and hash of the stored artifact and evidence and, outcome by outcome, the numbers of lines that say it, every line says everything about its record and points at the stored artifact, and the result and receipt say the same |
| StoredBundle.HonestBundleReconciles | src/evidence_cartographer/sources/met/service.py:130-148 | the same, in terms of what others did, for every behaviour in which no other program declares a false hash for what it writes to the bundle's keys |
| StoredBundle.HonestDeclares | src/evidence_cartographer/infrastructure/minio_bronze.py:101-145 | under that condition the hash that any object at the key declares is the hash of its bytes, whoever created it |

## Left out

- Request signing, headers other than the size and hash metadata, and diagnostics: foreign SDK internals without protocol state.
- SHA-256 itself: an arbitrary function of the bytes; incremental update is modelled as absorbing a concatenation.
- SendOnce: the declared length is always the number of bytes left in the stream, as `store_bundle` arranges; a caller that declares another length is not modelled.
- PutObjectIfAbsent: the same restriction to a declared length that is the number of bytes left in the stream.
- Attempt: the same restriction, counted from the start position.
- Spool files: writing, rewinding and closing a spool never fails. In the code an OSError there is a staging error, and one on closing comes after a PUT that has succeeded; the run then stops where the protocol's Crash event stops it, so the theorems about reachable states cover it, but StoreBundle's error cases do not.
- IterEvidence: items are produced as one sequence with an ending (exhausted or raised), not lazily, so the interleaving of reading a row and staging its line is not modelled; no store request happens in between.
- IterEvidence: rows arrive numbered consecutively from 2, as Polars numbers them, so the branch for a noninteger row number is not reachable; Polars, Pandera and the CSV dialect are not part of this model.
- Header preflight: an arbitrary function of the file, its messages are carried through; its rules are set arithmetic on column names.
- ObjectIdMeaning: full Python int syntax (Unicode digits, underscores, the digit limit) is not modelled; trimmed ASCII with an optional sign is.
- Lower: only ASCII letters change, so characters whose lower case falls into ASCII (such as the Kelvin sign) are not modelled.
- Dates: the UTC calendar day is given with the instant; the time-zone conversion, ISO parsing and strftime for years before 1000 are not part of this model.
- Text: strings are Unicode scalar values, so the encoding error on lone surrogates is not modelled; JSON numbers are integers, the only ones the models dump.
- Redirects in `infrastructure/http.py`: an exchange is an arbitrary response or a failure to open one.
- Run: the temporary directory is private to the run, and the retry decider and the UUID and clock factories are arbitrary functions that do not raise, except that the download's clock may.
- Settings, logging, orchestration flows, dbt, domain entities and their field validators: plumbing, or settled by reading one validator.
