# A verified model of the juicehost file store

juicehost stores uploaded files in one flat directory and serves them back. This project models two parts of it in
Dafny and proves properties of them.

**The local storage backend** (`src/storage.rs`). The directory, the index of extensions and the metadata cache are
three views of the same files; reservations, temporary files and capability files share the directory with them. It is
modelled twice.

- *One call at a time.* `LocalBackend.Backend` is a class with the directory, the inodes, the index and the cache as
  fields. Its methods have the source's steps, loops and early returns; an `Env` value says what the machine does
  during a call (free space, and which filesystem call fails). `Valid()` says that the fields are consistent and stand
  for a `Store`, the stored files and the stored capability hashes. Every method is proved against a function on
  `Store` (`StoreSpec`), for every `Env`. `Answers`, `StoreLaws`, `SimpleStore` and `Conservation` prove laws of those
  functions: exactly when an operation succeeds, what it leaves and how it fails otherwise, what a failure can change,
  what a capability protects and where it comes from, and that whole runs are runs of one simple map. `Runs` puts both together: runs of operations on a `Backend`.
- *Any number of calls at once.* `Protocol` is a step relation: one step per filesystem call or index access, with
  arrivals, failing calls, crashes and restarts. `Lifecycle` is the argument about ids alone; `ProtocolInvariant`,
  `StepEffects` and `ProtocolSafety` carry it to whole states. `Phases`, `Recovery`, `Survival`, `Outcomes`,
  `Race` and `Solo` state the results; `Restart` shows that the restart of the protocol is `init_cache` of the class.

**The byte pipelines** (`src/handlers.rs`). Uploads pass the body deadline, content sniffing, the size check and the
storage write (`Uploads`, `Handlers`); downloads pass the range parser and the chunked reader (`RangeHeader`,
`RangeDelivery`, `Serving`). Byte ranges are those of section 14.1.2 of RFC 9110. Streams are sequences of chunks and
errors; a read call returns any number of bytes from one to what was asked for.

`Names`, `Decimal` and `Filenames` model the file names as text. The other modules use the structured names, which
`Names.RenderInjective` shows to be as good as the text, up to one coincidence that the model keeps.

## Results that qualify what the code promises

- **Reused ids.** `delete`, `rename` and `concat` read an extension from the index and unlink later. If the id is
  deleted and created again in between, they unlink the new file while it is being published. `LostPut.PutIsLost` is a
  run that ends with a put reported as successful, its file gone, and its index entry left for good. The safety
  theorems therefore speak of runs in which a file is linked only while no task still acts on an earlier life of it
  (`Protocol.Timely`). `Phases.UntimelyLinkBreaks` shows that this is exact: any other link can be followed by at most
  three steps of one other task that leave the id in no phase. Ids that are not reused satisfy it
  (`Phases.SingleUseRuns`). In such runs an acknowledged put keeps its file until a delete, rename or concat that has
  read its index entry unlinks it (`Outcomes.AcknowledgedPutStays`).
- **The ids `cap` and `reserve`.** The reservation of `cap` is the file `.cap.reserve`, which is also the capability
  file of `reserve`. `SimpleStore.Simulation` says exactly when this shows: while `reserve` has a capability, `cap`
  cannot be created; and renaming an uncapped `reserve` to `cap` gives it an empty capability, which no hash equals. A
  scan also takes reservations and temporary files of `cap` for capability files (`Names.ClassifyCorrect`), so that
  temporary files of `cap` outlive a restart (`LocalBackend.Backend.InitCache`).
- **Failures that change something.** An operation that fails changes nothing, exactly unless it fails while it writes
  a new capability file or moves one (`StoreLaws.FailureIsAtomic`).
- **Backward ranges.** `get_range_stream` refuses bounds outside the file, but not an end before the start; the length
  then wraps around (in a build that checks overflow, it panics). `RangeDelivery.BackwardRange` says what is delivered.
  `parse_range` never asks for such a range (`RangeHeader.RangeInBounds`).

## Model

| member | source | states |
|---|---|---|
| `Decimal.ParseOfDec` | src/handlers.rs:345-365 | parsing the decimal text of a number gives it back exactly when it fits in 64 bits, and fails otherwise |
| `Decimal.ParseFits` | src/handlers.rs:345-365 | every parsed number fits in 64 bits |
| `Decimal.ParseRejects` | src/handlers.rs:345-365 | text that is not digits after at most one plus sign is no number |
| `Decimal.ParsePadded` | src/handlers.rs:345-365 | a plus sign and leading zeros make no difference |
| `Decimal.DecInjective` | src/storage.rs:792-799 | different process ids and counters print differently |
| `Names.RenderInjective` | src/storage.rs:282-293 | two generated names are the same file if and only if they are the same name, or the reservation of `cap` and the capability of `reserve` |
| `Names.ClassifyData` | src/storage.rs:205-213 | `id.ext` splits at its last dot into that id and extension, for all valid components |
| `Names.ClassifyCorrect` | src/storage.rs:177-220 | the scan recognises every generated name if and only if it is not a reservation or temporary file of `cap` |
| `Names.Classify` | src/storage.rs:181-220 | whatever text is accepted as a data file has a valid id and a valid extension |
| `Names.ValidChars` | src/storage.rs:1442-1447 | a name component is made of ASCII letters and digits, dash and underscore |
| `Filenames.FileName` | src/storage.rs:1435-1440 | the file name of a path is never empty, a dot, two dots, or a text with a separator |
| `Filenames.SafeExtensionIsSafe` | src/storage.rs:1453-1460 | every client file name gives a valid, lower-case extension |
| `Filenames.ExtensionOf` | src/storage.rs:1435-1440 | the extension of `stem.ext` is `ext`, for every non-empty stem without separators |
| `Filenames.DetectedExtensionWins` | src/handlers.rs:653-669 | the stored extension is the detected one, whatever the client calls the file |
| `Filenames.StoredExtensionFits` | src/handlers.rs:653-669 | the stored extension is the detected type, else what follows the last dot of the client's file name, lower-cased letter by letter, else `bin` |
| `Filenames.TrailingSeparators` | src/storage.rs:1435-1440 | separators after a client's file name, and single dots behind them, do not matter |
| `Filenames.StoredNameSplits` | src/storage.rs:1453-1460 | the name a file is stored under is read back by a scan as the same id and extension |
| `RangeHeader.RangeInBounds` | src/handlers.rs:326-377 | for every header text, a satisfiable range is inside the file, not empty, and at most the length limit, without overflow |
| `RangeHeader.ClosedRange` | src/handlers.rs:353-372 | `bytes=a-b` for all numbers a and b: the exact outcome, including both overflow cases and b below a |
| `RangeHeader.OpenRange` | src/handlers.rs:353-372 | `bytes=a-`: unsatisfiable past the end, otherwise from a to the end or the length limit |
| `RangeHeader.SuffixRange` | src/handlers.rs:343-352 | `bytes=-n`: the last min(n, size, limit) bytes, unsatisfiable for 0, ignored beyond 64 bits |
| `RangeHeader.PaddedHeader` | src/handlers.rs:327-354 | blanks around the header, after the unit, and around the numbers make no difference |
| `RangeHeader.ForeignHeader` | src/handlers.rs:327-334 | every header in another unit, and every one with a comma, is ignored |
| `RangeHeader.DashlessHeader` | src/handlers.rs:341-376 | every header without a dash is ignored, unless the file is empty |
| `RangeHeader.EmptyFileHeader` | src/handlers.rs:336-338 | of an empty file no range in bytes can be satisfied, whatever it says |
| `RangeDelivery.ReadLength` | src/storage.rs:570-571 | a read returns between one byte and its buffer size, and nothing only at the end of the file |
| `RangeDelivery.RangeExact` | src/storage.rs:564-585 | under every schedule of short reads the range loop ends and yields exactly the range |
| `RangeDelivery.RangeChunks` | src/storage.rs:564-585 | in at most as many chunks as bytes, none of them empty or longer than 64 KiB |
| `RangeDelivery.BackwardRange` | src/storage.rs:564-585 | with the end before the start the stream is empty if they are adjacent, and otherwise the rest of the file followed by an error |
| `RangeDelivery.RangePrefix` | src/storage.rs:564-585 | with failing reads the consumer sees a prefix of the range, and no error if and only if it is complete |
| `RangeDelivery.FileExact` | src/storage.rs:773-788 | the whole-file stream yields exactly the file |
| `RangeDelivery.CrawlTiles` | src/handlers.rs:353-372 | following capped open-ended answers, each under short reads of its own, yields the whole file in the fewest possible pieces, and the next request is unsatisfiable |
| `Uploads.DeadlineShape` | src/handlers.rs:1031-1064 | the deadline passes a prefix of the chunks, then ends cleanly or with exactly one error |
| `Uploads.DeadlineCuts` | src/handlers.rs:1031-1064 | exactly the chunks that come in time, up to the first that does not or fails, pass; then one error, or the clean end of the body |
| `Uploads.PunctualBodyPasses` | src/handlers.rs:1049-1052 | a body without errors that is never late passes unchanged |
| `Uploads.DeadlineIsHonest` | src/handlers.rs:1031-1064 | a body that the deadline ends without an error is the client's whole body |
| `Uploads.SniffAndValidate` | src/handlers.rs:608-651 | exactly the first 512 bytes are inspected however the body is chunked; the rebuilt body has the same bytes and the same late error |
| `Uploads.SizedBody` | src/handlers.rs:1066-1093 | for every limit and every body: it passes unchanged or ends with a verdict that depends on its bytes and its error, not on its chunks, unless a chunk overflows the 64-bit counter |
| `Uploads.OverflowIsTooLong` | src/handlers.rs:1073-1075 | a body that overflows the counter is longer than any 64-bit limit |
| `LocalBackend.Backend.constructor` | src/storage.rs:157-174 | a new backend over an empty directory is consistent and stands for an empty store |
| `LocalBackend.Backend.ReserveId` | src/storage.rs:337-359 | the reservation is refused exactly when the id is invalid, indexed, or blocked by a capability file; a refusal leaves no reservation |
| `LocalBackend.Backend.FillTemp` | src/storage.rs:464-475 | the chunk loop writes exactly the observed bytes, reports their number, and ends with the first error |
| `LocalBackend.Backend.Publish` | src/storage.rs:846-862 | publishing adds exactly the new file, or removes the temporary file and changes nothing |
| `LocalBackend.Backend.WriteLocal` | src/storage.rs:801-843 | on success exactly the new file is added, with the body's bytes; on failure nothing is left |
| `LocalBackend.Backend.PutStream` | src/storage.rs:395-487 | the backend stays consistent and does exactly what `StoreSpec.Put` says, with any call failing; the new file has an inode of its own and the time of the call |
| `LocalBackend.Backend.PutStreamWithCapability` | src/storage.rs:418-431 | as `StoreSpec.PutWithCapability`: the capability is created first and removed when the put fails |
| `LocalBackend.Backend.CreateCapabilityFile` | src/storage.rs:295-317 | as `StoreSpec.CreateCapability`, including a write that fails half way |
| `LocalBackend.Backend.VerifyCapability` | src/storage.rs:319-329 | true if and only if the stored hash of the id is the presented one |
| `LocalBackend.Backend.DeleteFile` | src/storage.rs:589-605 | as `StoreSpec.Delete`: file, index entry, cache entry and capability go together, or nothing does |
| `LocalBackend.Backend.DeleteFileWithCapability` | src/storage.rs:607-614 | as `StoreSpec.DeleteWithCapability` |
| `LocalBackend.Backend.MoveFile` | src/storage.rs:618-654 | the file gets the new name with the same inode and loses the old one; a failure in between is undone |
| `LocalBackend.Backend.RenameFile` | src/storage.rs:616-664 | as `StoreSpec.Rename`; size, extension and entity tag of the file stay the same |
| `LocalBackend.Backend.RenameFileWithCapability` | src/storage.rs:666-674 | as `StoreSpec.RenameWithCapability` |
| `LocalBackend.Backend.CopyParts` | src/storage.rs:715-735 | the copy loop leaves exactly the parts' bytes in order, or ends with the first error |
| `LocalBackend.Backend.DeleteParts` | src/storage.rs:746-750 | exactly the parts that can be unlinked go, with their capabilities |
| `LocalBackend.Backend.ConcatFiles` | src/storage.rs:689-753 | as `StoreSpec.Concat`, with any call failing; the cache stays right although the target is never evicted, and the target is a new file |
| `LocalBackend.Backend.ConcatFilesWithCapability` | src/storage.rs:755-771 | as `StoreSpec.ConcatWithCapability`: nothing happens unless every part's capability matches |
| `LocalBackend.Backend.Stat` | src/storage.rs:239-268 | cached or not, the answer is the stored size and extension and the tag made of inode, modification time and length; the cache stays coherent |
| `LocalBackend.Backend.GetFile` | src/storage.rs:504-536 | the stored bytes and their true metadata; not found exactly when the id is not stored, and an I/O error when a stored file cannot be read |
| `LocalBackend.Backend.GetRange` | src/storage.rs:542-587 | for all bounds: the range stream of the stored bytes, refused exactly when the id is missing, a bound is outside the file, or the file cannot be opened |
| `LocalBackend.Backend.GetWhole` | src/storage.rs:773-788 | the stream of the stored bytes, not found, or an I/O error when the file cannot be opened |
| `LocalBackend.Backend.InitCache` | src/storage.rs:177-227 | for all generated names in every order: fails if and only if two data files share an id; otherwise removes exactly the debris, indexes exactly the data files, and leaves the backend consistent if and only if there is no temporary file of `cap`, and but for those otherwise |
| `LocalState.Untouched` | src/storage.rs:480-486 | unlinked leftovers do not change what the fields stand for |
| `LocalState.TagTells` | src/storage.rs:1462-1472 | two entity tags are equal if and only if inode, modification time and length are |
| `LocalState.MovedMeta` | src/storage.rs:1462-1472 | a file under a new name keeps its metadata |
| `LocalState.OthersKeepMeta` | src/storage.rs:1462-1472 | what an operation frames keeps its metadata, entity tag included |
| `Runs.Perform` | src/storage.rs:394-789 | every operation on a backend is the specified one, and leaves size, extension and entity tag of every other id as they were |
| `Runs.Run` | src/storage.rs:394-789 | a run of any operations, under any failures, gives the specified results and ends in the specified store |
| `Runs.RunCalmly` | src/storage.rs:394-789 | a run of the backend in which no call fails and nothing makes `cap` gives the results of the simple map and leaves what it leaves |
| `StoreLaws.FailureIsAtomic` | src/storage.rs:295-789 | a failed operation leaves the store as it was if and only if it did not fail in writing or moving a capability file |
| `StoreLaws.ChangeNeedsCapability` | src/storage.rs:607-674 | an operation that presents a capability changes anything only if that is the capability of every file it consumes |
| `StoreLaws.OthersUntouched` | src/storage.rs:394-789 | no operation, failing or not, touches files or capabilities of other ids |
| `Answers.SucceedsExactly` | src/storage.rs:394-789 | every operation succeeds if and only if the fields of the environment and the store let it: valid new id, capabilities, free space, and every call it makes |
| `Answers.PutLeaves` | src/storage.rs:418-502 | a successful put adds exactly the body under the id, with the stored extension, and the given capability |
| `Answers.DeleteLeaves` | src/storage.rs:589-614 | a successful delete removes file and capability, or reports that there was no file |
| `Answers.RenameLeaves` | src/storage.rs:616-674 | a successful rename moves exactly the file, and the capability that it finds |
| `Answers.ConcatLeaves` | src/storage.rs:689-771 | a successful concat leaves exactly the target, with the parts in order, the parts it could not unlink, and all other files and capabilities |
| `Answers.PutRefused` | src/storage.rs:418-502 | the error of every failing put, in the order of its checks |
| `Answers.ConcatRefused` | src/storage.rs:689-771 | the error of every failing concat, in the order of its checks |
| `Answers.OthersRefused` | src/storage.rs:504-674 | the error of every failing delete, rename, get and stat |
| `Answers.BrokenCapLeaves` | src/storage.rs:311-660 | what the two failures that change something leave |
| `Answers.LowSpaceRefuses` | src/storage.rs:444-448 | a put or concat that lacks nothing but free space is refused for that and changes nothing |
| `SimpleStore.Simulation` | src/storage.rs:394-789 | while no call fails, every operation gives the result and the contents of one map from id to extension, bytes and capability, if and only if it is not a quirk of `cap` and `reserve` |
| `SimpleStore.RunRefines` | src/storage.rs:394-789 | over every run of put, delete, rename, concat, get and stat without a failing call, all results, files and capabilities are those of the map |
| `SimpleStore.Lineage` | src/storage.rs:616-664 | over every run of the map, each file has the capability of the put or concat that made it, followed through its renames |
| `SimpleStore.CapabilityLineage` | src/storage.rs:295-335 | from an empty store, every stored hash belongs to a stored file and is the one given to the put or concat that made the file |
| `SimpleStore.RenameMintsCapability` | src/storage.rs:655-661 | the concrete rename that gives `cap` a capability no one was given and no hash matches |
| `SimpleStore.CapIsRefused` | src/storage.rs:341-353 | the concrete put of an absent id that is refused |
| `Conservation.ConcatConserves` | src/storage.rs:689-753 | a concat of distinct parts that unlinks them all keeps the number of stored bytes |
| `Conservation.RenameConserves` | src/storage.rs:616-664 | a rename keeps the number of stored bytes |
| `Handlers.PutDependsOnBytes` | src/storage.rs:433-487 | storing a body depends on its bytes and its error, not on its chunks, unless a write fails |
| `Handlers.Upload` | src/handlers.rs:993-1011 | whatever fails, an upload stores exactly the body, under the right extension, and reports its true length, or changes nothing; without a failing write the answer to every body, store and environment is given |
| `Handlers.StoreFileTicket` | src/handlers.rs:938-1029 | each refusal before the body, in order, with nothing changed; behind the deadline as `Upload`, with the signed size exact; success implies that all checks passed, and an upload that has all it needs succeeds |
| `Handlers.StoreFileStreaming` | src/handlers.rs:690-743 | the same for streaming uploads, with the size limit |
| `Handlers.WelcomeIsStored` | src/handlers.rs:993-1011 | a punctual, allowed body within the limits is stored whole when id, space and file system allow it |
| `Handlers.TicketStoresWholeBody` | src/handlers.rs:993-1011 | an accepted ticket upload has stored the client's whole body, of the signed size |
| `Handlers.AddSizes` | src/handlers.rs:848-862 | the loop over cached sizes finds the first missing part or the first overrun of the limit |
| `Handlers.ConcatFilesRequest` | src/handlers.rs:829-883 | bad request if and only if ids, number or distinctness of the parts are wrong; the first missing or excessive part decides; accepted if and only if all checks pass and the backend can do it |
| `Handlers.ConcatRequestCorrect` | src/handlers.rs:838-862 | an accepted request joined the parts in order within the size limit, removed every part it could unlink, and left the rest alone |
| `Handlers.ConcatRequestConserves` | src/handlers.rs:838-862 | and kept the number of stored bytes when it could unlink them all |
| `Handlers.MissingPartKeepsAll` | src/handlers.rs:849-855 | a request that names a missing part fails and changes nothing |
| `Serving.ServeFile` | src/handlers.rs:244-315 | not found exactly when the id is not stored; otherwise, while the file can be read, exactly the response that the range header, or the lack of one, calls for |
| `Serving.RequestIsAnswered` | src/handlers.rs:250-313 | no header, another unit, a comma or no dash: all of the file; closed, open and suffix ranges with blanks anywhere: exactly the right part, refused past the end |
| `Serving.HeadersMatchBody` | src/handlers.rs:252-278 | for every range header and every schedule of short reads, Content-Length and Content-Range match the bytes sent, which are exactly that piece of the file |
| `Lifecycle.Pass` | src/storage.rs:354-358 | a reserved id that is not indexed has no data file of any extension |
| `Lifecycle.Link` | src/storage.rs:847 | linking keeps ids alive when no task remembers this file from an earlier life |
| `Lifecycle.Unlink` | src/storage.rs:595-599 | of all tasks that race to unlink a file exactly one becomes its remover |
| `StepEffects.EffectKeepsLife` | src/storage.rs:337-664 | every kind of step keeps the invariant of ids |
| `StepEffects.StepEffect` | src/storage.rs:395-843 | every step of every operation is of one of those kinds |
| `StepEffects.StepTouches` | src/storage.rs:433-753 | every step writes only through names of its own task, and published files never change |
| `ProtocolSafety.StepKeepsInv` | src/storage.rs:337-862 | every timely step of every task keeps the whole invariant, whatever call fails |
| `Phases.ExactlyOnePhase` | src/storage.rs:337-862 | in every state of every run each id is absent, being published by the one holder of its reservation, stored, or being removed by exactly one task; and has at most one data file |
| `Phases.Quiescent` | src/storage.rs:275-486 | when nothing has begun or is still running, directory and index agree exactly and no reservation or temporary file is left |
| `Phases.SingleUseRuns` | src/storage.rs:337-359 | runs that do not reuse ids satisfy the assumption of the safety theorems |
| `Phases.UntimelyLinkBreaks` | src/storage.rs:590-598 | the assumption is exact: any other link can be followed by at most three steps that leave the id in no phase |
| `LostPut.PutIsLost` | src/storage.rs:590-598 | the concrete run on which a successful put loses its file |
| `LostPut.ArrivedIsReachable` | src/storage.rs:589-605 | that run starts from a freshly started process with one stored file |
| `Recovery.RunSafe` | src/storage.rs:394-862 | the invariant holds in every state of every run of any number of operations, with failing calls, crashes and restarts |
| `Recovery.CrashSafe` | src/storage.rs:177-227 | wherever a run stops, a restart succeeds, indexes exactly the data files, leaves no debris, and every file holds what its creator meant to store |
| `Recovery.InterruptedRecovery` | src/storage.rs:177-227 | a crash in the middle of a restart changes nothing about the next one |
| `Recovery.LinkedSurvivesCrash` | src/storage.rs:637-652 | between the link of a put, rename or concat and its index entry, a crash finds the file under the new id, whole, whatever other tasks do |
| `Recovery.RenameLinksSameFile` | src/storage.rs:637-645 | the link of a rename gives the new id the same file and the same meant bytes |
| `Survival.StoredStays` | src/storage.rs:337-862 | an indexed file keeps its name, inode, bytes and index entry in every step of every task, and in every crash, but the unlink of a task that has read its entry |
| `Survival.StoredUntilStruck` | src/storage.rs:337-862 | over every run, restarts included, a stored file stays, the same, until such an unlink |
| `Survival.StrikeRemoves` | src/storage.rs:595-599 | such an unlink does remove the file, so nothing weaker than its absence keeps one |
| `Survival.RunApart` | src/storage.rs:715-750 | in every state of every run, a concat has not found its own target among the parts it copies and deletes |
| `Survival.PublishedStays` | src/storage.rs:637-842 | in every state of every run, a put, rename or concat past its link, also after its reply, has its file in place, with the bytes meant for it and, once entered, indexed, unless another task unlinked it |
| `Survival.PublishedSurvivesCrash` | src/storage.rs:637-753 | wherever a run stops after the link, also while a concat deletes its parts and after the reply, a restart finds the id with the bytes meant for it, unless another task unlinked the file before |
| `Outcomes.ReaderSeesWholeFile` | src/storage.rs:504-523 | over every run, a get that replies with contents opened the file of its id at an earlier step and returns, whole, what was then meant to be stored under the id |
| `Outcomes.ConcatGathers` | src/storage.rs:715-735 | over every run, what a concat has copied is, part by part in order, what was meant to be stored under each part when it was opened |
| `Outcomes.ConcatSurvivesCrash` | src/storage.rs:737-750 | a crash after the link, also between the deletions of the parts, leaves the target with the contents of all parts in order, unless another task unlinked it |
| `Outcomes.RenameSurvivesCrash` | src/storage.rs:637-654 | a crash after the link of a rename, also after its reply, leaves the new id with what the old id was meant to hold, unless another task unlinked it |
| `Outcomes.AcknowledgedPutStays` | src/storage.rs:480-486 | a put that reported success has its file indexed and in place, with the bytes of its body, until another task that has read the entry unlinks it |
| `Restart.RestartBackend` | src/storage.rs:177-227 | from what any state of the protocol leaves in the directory, in any order of entries, `init_cache` succeeds and ends with the directory and index of the protocol's restart step, every file holding what its creator meant |
| `Race.StepsAreFinite` | src/storage.rs:395-843 | every step brings its task closer to its reply, so no operation runs forever or gets stuck |
| `Race.ExactlyOneWins` | src/storage.rs:337-487 | of any number of concurrent puts of an absent id, in any interleaving without failing calls, exactly one succeeds and all others report a conflict; the stored bytes and extension are the winner's |
| `Solo.FinishIsRun` | src/storage.rs:395-843 | the steps of a task that runs alone, up to its reply, are a run |
| `Solo.SpawnIsAlone` | src/storage.rs:395-843 | every valid request can come to a process that has just started, and then runs alone |
| `Solo.SoloPut` | src/storage.rs:433-487 | alone and without a failing call, a put of a free id ends with the file linked, indexed and holding its body; otherwise with a conflict or the body's error, and nothing changed |
| `Solo.SoloDelete` | src/storage.rs:589-605 | a delete ends with file and entry gone, or reports false exactly when the id is not indexed |
| `Solo.SoloGet` | src/storage.rs:504-536 | a get returns the stored bytes, or not found exactly when the id is not indexed |
| `Solo.SoloRename` | src/storage.rs:616-664 | a rename ends with the target linked to the very inode of the source and indexed, and the source gone; a taken target or a missing source is refused, and nothing changed |
| `Solo.SoloConcat` | src/storage.rs:689-753 | a concat ends with the target holding the parts' bytes in order, and the parts gone; a taken target or a missing part is refused, and nothing changed |
| `Solo.FaultChangesNothing` | src/storage.rs:337-842 | whichever call of a request fails before it commits: it is answered with that error, and directory and index are as when it came |
| `Solo.StuckPart` | src/storage.rs:746-750 | a part that cannot be unlinked stays, and the concat still succeeds |
| `Solo.MissEnds` | src/storage.rs:589-735 | a request whose file has been unlinked by another is answered so, and changes nothing |

## Left out

- Capability files and the metadata cache in the concurrent model: no other step of the protocol reads them; a slow stat may cache an entry after a concurrent delete, so coherence is claimed for one call at a time.
- The id `cap` in the concurrent model, because a scan does not recognise its debris.
- Cancellation of a single operation while the process lives: dropped after the link and before the index entry, it would leave an unindexed file.
- Power loss: the code flushes and does not sync; a crash here is the death of the process.
- Other writers in the files directory, directories, symbolic links and device files in it, and names that the backend does not generate.
- Cleanup removals that fail (temporary file, reservation, rollback, a capability after its file): they are taken to succeed, in both models.
- Copying one part of a concat is one step in the concurrent model; published files never change, so finer steps would read the same bytes.
- I/O errors of the directory scan itself, of reading a capability file, and of an uncached stat.
- `put` and `put_with_capability` as methods of their own: they are the single-chunk case of the streaming methods, with which `write_local` shares its loop.
- Reuse of inode numbers: a new file gets a number that no known file has.
- Messages inside I/O errors, and the text form of entity tags.
- SHA-256, magic-byte detection and file-type validation: capability hashes are byte strings, and inspection is a parameter.
- `S3Backend`, HTTP routing, authentication, tickets beyond their size and id, semaphores, caching headers, `If-None-Match`, status and alias probes, and configuration parsing.
- Range headers in bytes, with a dash, whose bounds are not plain decimal numbers: only the bounds of the result are proved, and which text is a number.
- Non-ASCII white space in headers, and Windows paths in client file names.
- The limits of configuration are assumed where arithmetic needs them: a positive range limit, and a file size limit far below 64 bits.
