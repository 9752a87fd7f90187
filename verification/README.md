# Verified models of the OTA tooling and the common open/close API

This project models the parts of the repository whose correctness is hardest to see by
reading, and proves what they are for.

* **AWS resource lifecycles.** The OTA creator, the OTA cleanup, the Thing alias and the
  event policy are methods over a service object. A service call is one atomic step that
  may fail without effect, take effect and lose its response, or succeed; background work
  (an update being created or deleted, a job being deleted, a detachment settling, AWS
  Signer publishing) moves when it is looked at. A creator may stop at every point, journal
  writes replace the file atomically, and the main results say that the journal which
  survives is enough: cleanup touches only what the journal owns, certifies only what is
  really gone, and on a service that stops failing puts everything back.
* **The serial reader.** The queue object as a class over chunks, a protocol of reader
  thread, consumer, reset and stop as a step relation over all interleavings, the
  quiet-detection loop over timelines, and the timestamped log as a streaming transducer.
* **S-records to signed RSU images.** The strict decoder, three builders, the address
  shifter, the legacy descriptor with its validator, the maintenance-image check and the
  boot-bundle check that must accept every builder's output. The specification throughout
  is the sparse memory that the records write.
* **Flash and TSIP open/close.** One protocol for any number of tasks, instantiated for
  both files, with every access to the status word a step of its own.

| files | source |
|---|---|
| `CommonApi`, `CommonApiCalls` | `Common/common_api/r_common_api_flash.c`, `r_common_api_tsip.c` |
| `SerialQueue`, `SerialProtocol`, `SerialStop`, `SerialOperations`, `SerialReader`, `QuietStop`, `TimestampLog` | `tools/rx671_ota_host.py` |
| `Bytes`, `Srecord`, `SrecordText`, `Rx671Parser`, `Rx671Meaning`, `RsuFormat`, `Rx671Builder` | `tools/build_rx671_fwup_v2_rsu.py` |
| `LooseSrec`, `Bg96Builder` | `tools/create_bg96_rsu.py` |
| `Rx72nBuilder` | `tools/build_fwup_v2_rsu.py` |
| `NormalBoot`, `MaintenanceImage`, `MaintenanceMeaning`, `ShiftSrec` | `tools/normal_boot.py`, `tools/build_public_signer_provisioner.py`, `tools/shift_srec_addresses.py` |
| `OtaMeta`, `OtaReconcile`, `PagedListing`, `PagedReplies`, `OtaCloud`, `OtaWaits`, `OtaCleanup`, `OtaCleanupState`, `OtaRerun` | `tools/verify_ota_aws_state.py` |
| `Journal`, `OtaCreate`, `OtaRecovery` | `tools/create_bg96_ota_update.py`, with the cleanup above |
| `ThingAlias`, `AliasCleanup` | `tools/manage_ephemeral_iot_thing.py` |
| `EventPolicy`, `PolicyLifecycle`, `PolicyRuns`, `PolicyContext` | `tools/manage_rx671_ota_event_policy.py` |

## What turned out to be conditional

* Refusing a driver close in the Flash API publishes CLOSE with the driver still open, and
  the next open overwrites a live semaphore handle exactly if the driver then accepts an
  open while it is open, which this model leaves to the driver: at most one semaphore is
  lost per refused close (`CommonApi.SemaphoresConserved`, `CommonApi.RefusedFlashCloseLeaks`).
* The quiet time certified before a stop is that of reads and acknowledgements. Bytes can
  be in flight at the certifying poll, and the look at the port that is acknowledged can be
  older than the interval if the reader is held up in between
  (`QuietStop.ReadCanBeInFlight`, `QuietStop.LookCanBeOld`); the stop drains both.
* S3 namespaces of two runs are disjoint for slash-free names, and collide without that
  (`OtaMeta.NamespacesAreDisjoint`, `OtaMeta.SlashedNamesCollide`).
* The creator's first journal is accepted for cleanup exactly if region, Thing name and
  bucket are not empty; the creator checks none of the three
  (`OtaCreate.FirstJournalIsAccepted`, `OtaRecovery.JournalsAreRefused`).
* The creator finds out that an OTA update id is in use only after the upload, with the
  request journaled. From then on cleanup never puts the service back: it is blocked and
  the upload stays, or it deletes the update that was there (`OtaRecovery.NeverRestored`,
  `OtaRecovery.UsedIdBlocks`, `OtaRecovery.UsedIdDeletes`). Recovery holds exactly if the
  id was not in use, or the creator stopped before asking (`OtaRecovery.CreateThenCleanUp`).
* An honest reply about the journaled OTA update blocks cleanup in exactly one case: the
  update is finished, or failed to be deleted, and names no job
  (`OtaCleanupState.HonestReplyIsCompatible`).
* Draining the output prefix of AWS Signer on a service that answers can fail only if
  Signer goes on publishing: at least two of the listings must have found something new
  (`OtaCleanup.DrainPrefix`, `OtaCleanupState.CleanupState`).
* Cleanup does not write back what it learns. Run again after a failure it can pass with a
  job alive that only the failed run knew, exactly if neither the journal nor the update
  names that job any more (`OtaRerun.CleanUpAgain`, `OtaRerun.JobCanBeLeftBehind`).
* The alias plan accepts an empty region and a principal that contains `:cert/` once or
  more, its cleanup only a region and exactly one `:cert/`
  (`AliasCleanup.PlanIsAccepted`, `AliasCleanup.TwoCertificatesInOneArn`).
* On a collision the alias creator has already written its journal, and cleanup does not
  look at the journal's status: a Thing that existed before is deleted exactly if its ARN,
  attributes and principals are the announced ones, as those of an earlier attempt of the
  same pipeline job are (`AliasCleanup.RecoverAlias`, `AliasCleanup.CollisionIsCleanable`).
* In the same way an event policy that existed before is deleted if it is an owned one
  (`PolicyRuns.CreateThenCleanUp`, `PolicyRuns.EarlierAttemptIsDeleted`). For an owned one
  with foreign detachments that have not settled, no claim is made that it is deleted.
* A rollback of the event policy that is reported complete can hide a policy only where
  the response of create-policy itself was lost; the separate cleanup removes it. A policy
  made with the credentials of another account than the context names is never deleted
  (`PolicyRuns.Create`, `PolicyRuns.CreateThenCleanUp`).

## Model

| member | source | states |
|---|---|---|
| CommonApi.InvHoldsInEveryRun | Common/common_api/r_common_api_flash.c:154-305 | Every run of any number of tasks keeps the whole invariant: exclusive transition, what its owner may rely on at each step, conservation of semaphores |
| CommonApi.MutualExclusion | Common/common_api/r_common_api_flash.c:154-305 | RUNNING is set exactly while some task is in transition; no two tasks ever are, so driver open and close never overlap |
| CommonApi.OpenMeansUsable | Common/common_api/r_common_api_tsip.c:97-167 | In every run, OPEN implies an open driver and a non-null semaphore handle |
| CommonApi.SemaphoresConserved | Common/common_api/r_common_api_flash.c:105-141 | Created semaphores are deleted, held or overwritten; TSIP overwrites none, Flash at most one per driver close that failed |
| CommonApi.RefusedFlashCloseLeaks | Common/common_api/r_common_api_flash.c:236-305 | From every open state, a refused driver close followed by an open reaches that bound exactly if the driver accepts an open while it is still open; if it refuses, the open fails and nothing leaks |
| CommonApi.SuccessWasTrueDuringTheCall | Common/common_api/r_common_api_tsip.c:97-243 | Whatever the other tasks do, a call returns success only if the status was OPEN (for close: CLOSE) at some moment of that call |
| CommonApi.RunningAlwaysEnds | Common/common_api/r_common_api_flash.c:154-305 | RUNNING always has an owner, and three steps of that owner end it whatever driver and kernel answer |
| CommonApiCalls.VerdictIsExact | Common/common_api/r_common_api_flash.c:154-305 | Over every run: a call that returns reports success if and only if the status after its last step is the one it promises and, for a close on Flash, the driver did not refuse it during the call |
| CommonApiCalls.NoVerdictWhileRunning | Common/common_api/r_common_api_flash.c:154-305 | No call returns unless the status was something other than RUNNING at some moment of it |
| CommonApiCalls.CallAlone | Common/common_api/r_common_api_flash.c:154-305 | In every run, once no transition is under way, a call that runs alone returns within four steps whatever driver and kernel answer; it succeeds exactly if the status was already right or both did their part (a refused close counts on Flash only), and its whole effect on status, driver, handle and counters |
| CommonApiCalls.WaiterAlone | Common/common_api/r_common_api_tsip.c:97-243 | A waiting call looks once no transition is under way, and succeeds exactly if it finds the status it promises |
| CommonApiCalls.CallsAreEntered | Common/common_api/r_common_api_tsip.c:97-243 | A task in no call enters the one it makes, and changes nothing else by that |
| SerialProtocol.InvHoldsInEveryRun | tools/rx671_ota_host.py:174-250 | Every interleaving of arrivals, reader thread, consumer, reset and stop keeps lock ownership, losslessness, the cutoff facts and the epochs |
| SerialProtocol.CertifiedMeansLossless | tools/rx671_ota_host.py:356-416 | Read bytes are consumed, discarded, buffered or overflowed; after a stop that took its cutoff and returned normally nothing overflowed, what left the queue followed by its contents is the physical byte stream, and the final drain is what was pending at the cutoff |
| SerialProtocol.LossIsNeverSilent | tools/rx671_ota_host.py:222-250 | From every run in which bytes overflowed, one more step each of the reader and of the stop sequence leads to the reader's error, which stays, and no stop is certified any more; and no state hides a loss once the reader is dead and the stop is not about to raise |
| SerialProtocol.ResetIsAnEpochBoundary | tools/rx671_ota_host.py:300-311 | No byte that arrived before a reset that completed normally is returned by a later read, in any interleaving |
| SerialStop.ErrorHasACause | tools/rx671_ota_host.py:174-217 | In every run an error is raised, or about to be, if and only if some step went wrong: the driver raised, a chunk did not fit, or the final drain was refused or short |
| SerialStop.RaisedHasACause | tools/rx671_ota_host.py:356-416 | A stop raises only if some step of the run went wrong or the reader thread did not end in time, and is certified only if none went wrong |
| SerialStop.OrdinaryStopIsCertified | tools/rx671_ota_host.py:376-416 | With the thread ended, no error, no cutoff taken and all that is pending fitting, four steps of a stop to which the driver gives all of it end in a certificate of exactly these bytes, whatever arrives, is read or is reset meanwhile |
| SerialStop.ReaderEnds | tools/rx671_ota_host.py:174-217 | Once asked to stop, the reader thread ends after at most four of its steps, whatever the driver answers, unless another one keeps the I/O lock |
| SerialStop.StopFromTheStart | tools/rx671_ota_host.py:356-416 | From the call of stop, with the reader between two turns and nothing wrong, the whole sequence ends in a certificate |
| SerialOperations.NewReader | tools/rx671_ota_host.py:122-164 | A new reader has read and lost nothing and was asked for nothing |
| SerialOperations.ReaderTurn | tools/rx671_ota_host.py:174-217 | One turn of the thread moves the first pending bytes to the end of the queue, reports them as lost if they do not fit, changes nothing if there are none, or ends the thread if it was asked to stop |
| SerialOperations.ReadAlone | tools/rx671_ota_host.py:258-292 | A read takes the front of the queue and is counted only if it takes something |
| SerialOperations.ResetAlone | tools/rx671_ota_host.py:300-311 | The whole effect of a reset, on a busy lock, a refusing driver and a failed reader too |
| SerialOperations.StopBegins | tools/rx671_ota_host.py:356-366 | A stop raises what the reader reported, returns at once after an earlier cutoff, and otherwise asks the thread to end, also after an earlier call that ran out of patience |
| SerialOperations.StopEnds | tools/rx671_ota_host.py:376-416 | The whole effect of the final drain; with nothing pending nothing is queued or counted |
| SerialOperations.StopTimesOut | tools/rx671_ota_host.py:367-369 | A thread that does not end in time makes the call raise and changes nothing else |
| SerialOperations.ArrivalsAreCounted | tools/rx671_ota_host.py:174-217 | The stamps are positions in arrival order |
| SerialReader.BufferedSerialReader.constructor | tools/rx671_ota_host.py:122-164 | A new reader is an empty queue with the given limit |
| SerialReader.BufferedSerialReader.Create | tools/rx671_ota_host.py:122-164 | Construction succeeds exactly for a positive stop timeout and a positive limit |
| SerialReader.BufferedSerialReader.AppendReaderChunk | tools/rx671_ota_host.py:222-250 | A chunk is counted and queued at the end, or counted and reported as overflow, exactly if it does not fit |
| SerialReader.BufferedSerialReader.InWaiting | tools/rx671_ota_host.py:253-256 | The number of queued bytes, or the reader's failure |
| SerialReader.BufferedSerialReader.PopFront | tools/rx671_ota_host.py:270-292 | Popping and splitting chunks yields exactly the first bytes of the queue and leaves the rest in order |
| SerialReader.BufferedSerialReader.Read | tools/rx671_ota_host.py:258-292 | A read removes the front of the queue, at most the size asked for; data is delivered before the reader's failure |
| SerialReader.BufferedSerialReader.ResetInputBuffer | tools/rx671_ota_host.py:300-311 | A reset empties the queue and books every byte as discarded; after a failure it changes nothing |
| SerialReader.BufferedSerialReader.FinalDrain | tools/rx671_ota_host.py:376-416 | The final drain succeeds exactly if there was no failure and all that was pending was read and fits |
| SerialReader.BufferedSerialReader.GetStats | tools/rx671_ota_host.py:316-354 | The audit figures always balance |
| QuietStop.CertifiedMeansQuiet | tools/rx671_ota_host.py:418-454 | What the loop certifies is physical quiet up to an acknowledgement at least the quiet time after its start: from its first poll on no bytes are in flight or taken; that acknowledgement stands for a look that saw the port drained, since when the reader did nothing; after it at most one read is begun and not yet counted |
| QuietStop.ReadCanBeInFlight | tools/rx671_ota_host.py:189-199 | A timeline certified at a poll while bytes that were read are not yet counted: quiet up to the poll itself would be false |
| QuietStop.LookCanBeOld | tools/rx671_ota_host.py:200-212 | A timeline certified although the acknowledged look is older than the whole interval |
| QuietStop.StopAfterQuiet | tools/rx671_ota_host.py:418-454 | The loop asks to stop at the first poll that completes a certified interval before the deadline and nowhere else |
| TimestampLog.LineAppended | tools/rx671_ota_host.py:479-498 | One turn of the write loop renders the next line, with a stamp exactly if a line starts there |
| TimestampLog.TimestampLog.Write | tools/rx671_ota_host.py:479-498 | A write appends the rendering of its text and carries over whether a line has begun |
| TimestampLog.ChunkingIndependence | tools/rx671_ota_host.py:479-498 | Up to the moments shown, the file depends on the text alone and not on how it was cut |
| Bytes.FromHexOfToHex | tools/shift_srec_addresses.py:57-63 | Printed bytes read back as the same bytes |
| Bytes.ToHexOfFromHex | tools/shift_srec_addresses.py:57-63 | Reading hex digits and printing them gives the digits back in upper case |
| Bytes.ParseHexIsBigEndian | tools/create_bg96_rsu.py:57-80 | The number that int(s, 16) reads from an even-length field is the big-endian value of its bytes |
| Bytes.DigitsInOrder | tools/shift_srec_addresses.py:57-63 | The sixteen digits are the usual ones, read in either case and printed in upper case |
| Srecord.StoredAt | tools/build_rx671_fwup_v2_rsu.py:67-95 | Storing a record changes exactly the addresses it covers, to its bytes |
| SrecordText.DecodeIsText | tools/build_rx671_fwup_v2_rsu.py:67-95 | For every type digit: a line is accepted exactly if it is hexadecimal, as long as its count says, closed by its checksum and has room for the address; S1 to S3 have their address in the 4, 6 and 8 characters after the count, S9 to S7 likewise, and the data is what follows up to the last two characters |
| SrecordText.OtherTypesRefused | tools/build_rx671_fwup_v2_rsu.py:67-72 | Every line of another type, S4 included, is refused for its type |
| SrecordText.WritesIsText | tools/build_rx671_fwup_v2_rsu.py:67-95 | A line writes a byte exactly if it is such an S1, S2 or S3 line that says so |
| Rx671Parser.Deposit | tools/build_rx671_fwup_v2_rsu.py:121-144 | The byte loop stores the whole record unless it disagrees with an earlier one, and reports the first address where it does |
| Rx671Parser.ParseApplicationMot | tools/build_rx671_fwup_v2_rsu.py:98-164 | The buffer loops with the populated flags compute the same payload or the same error as folding the records over a sparse memory |
| Rx671Meaning.ParseMeaning | tools/build_rx671_fwup_v2_rsu.py:98-164 | Parsing succeeds exactly if all records decode, data records are non-empty and inside a range, no two lines disagree at an address, and the reset vector is fully given and not blank; the payload is what the lines place, padded with 0xFF |
| Rx671Meaning.LineOrderIrrelevant | tools/build_rx671_fwup_v2_rsu.py:98-164 | Reordering or repeating lines changes neither acceptance nor the payload |
| RsuFormat.LegacyDescriptor | tools/build_rx671_fwup_v2_rsu.py:187-197 | A descriptor is packed exactly for a sequence number of 1 to 2^32-1 and fields that fit in 32 bits |
| RsuFormat.DescriptorRoundTrip | tools/build_rx671_fwup_v2_rsu.py:187-211 | The validator accepts a descriptor with sequence n exactly if it is the packed descriptor of n |
| RsuFormat.PackedIsAccepted | tools/build_rx671_fwup_v2_rsu.py:200-211 | Every packed descriptor is accepted with its own sequence number |
| NormalBoot.RsuAccepted | tools/normal_boot.py:69-92 | Every RSU of the right size passes exactly if its reset vector lies inside the application and its signature verifies over everything from 0x200, and yields its own sequence and vector |
| Rx671Builder.BuildHeader | tools/build_rx671_fwup_v2_rsu.py:242-269 | The packed header holds every field at its offset, for a 64-byte signature only |
| Rx671Builder.BuildImage | tools/build_rx671_fwup_v2_rsu.py:272-290 | The exact condition for an image, which is then a well-formed RSU whose own signature verifies |
| Rx671Builder.BuildFromMot | tools/build_rx671_fwup_v2_rsu.py:293-296 | From MOT text to an image that the boot check accepts exactly if the reset vector lies inside the application |
| LooseSrec.StrictImpliesLoose | tools/create_bg96_rsu.py:57-80 | Every line the strict decoder accepts is read by the lenient one as the same data record, or skipped if it is none |
| SrecordText.ReadIsText | tools/create_bg96_rsu.py:57-80 | The lenient reader sees data exactly on S1, S2 and S3 lines whose count, address and data characters read as numbers, cut short where the line ends, and skips the other types |
| Bg96Builder.LoadImage | tools/create_bg96_rsu.py:83-96 | Overwriting the image byte by byte gives the last writer's byte at every address of the user area |
| Bg96Builder.SignImage | tools/create_bg96_rsu.py:98-126 | Packing header and descriptor in place and signing yields a well-formed RSU with its payload and second signature |
| Bg96Builder.Build | tools/create_bg96_rsu.py:83-140 | The exact condition for an image, and that the boot check accepts it exactly if its reset vector lies inside |
| Bg96Builder.BuildersAgree | tools/create_bg96_rsu.py:57-114 | On every MOT the RX671 parser accepts, the BG96 builder loads the same application and signs the same bytes at the same sequence number |
| Rx72nBuilder.ParseMotFile | tools/build_fwup_v2_rsu.py:162-199 | The buffer is the last-writer-wins image, as long as the larger of the application and the furthest end of a matched record, so it has the application's size exactly if none runs past; the count is that of the bytes copied |
| Rx72nBuilder.BuildRsu | tools/build_fwup_v2_rsu.py:233-262 | Appending field by field yields a well-formed RSU exactly for a buffer of the application's size, a valid sequence and a signature that verifies; the boot check accepts it exactly if its vector lies inside |
| Rx72nBuilder.BuildFromMot | tools/build_fwup_v2_rsu.py:265-334 | Both outputs are refused exactly if a line cannot be read or a matched record runs past the application (or the sequence does not fit), and both carry the same signed bytes |
| ShiftSrec.AddressPart | tools/shift_srec_addresses.py:53-56 | The byte loop prints the shifted address big-endian |
| ShiftSrec.RewriteRecord | tools/shift_srec_addresses.py:39-63 | The method computes the fate of a line: kept, rewritten, dropped or refused |
| ShiftSrec.ShiftCommutesWithDecode | tools/shift_srec_addresses.py:39-63 | Decoding the rewritten line gives the same type and data at the shifted address, with a valid checksum |
| SrecordText.ShiftIsText | tools/shift_srec_addresses.py:39-63 | Of the decodable lines, S0, S5 and S6 are kept; a selected S1 to S3 or S7 to S9 line becomes an accepted line of the same type, length and data characters with the shifted number where its address stands, or is refused if that does not fit |
| ShiftSrec.ShiftBackRestores | tools/shift_srec_addresses.py:35-63 | Shifting back with the translated window restores the line, its count, address and checksum in upper case |
| ShiftSrec.UpperCaseRoundTrip | tools/shift_srec_addresses.py:35-63 | A line printed in upper case is restored exactly |
| ShiftSrec.ShiftFile | tools/shift_srec_addresses.py:66-89 | The line loop keeps the fates of all lines in order and counts the changed ones, or fails if a line does |
| ShiftSrec.FileTranslated | tools/shift_srec_addresses.py:66-89 | With out-of-range records dropped, the output file writes exactly the translated bytes of the records that start in the window |
| MaintenanceImage.CollectRuns | tools/build_public_signer_provisioner.py:241-249 | The runs are contiguous pieces of the memory, cover every address, and are split only at gaps |
| MaintenanceImage.FindMarker | tools/build_public_signer_provisioner.py:241-249 | The search succeeds exactly if some address range of the sparse memory spells the marker |
| MaintenanceImage.ValidateImage | tools/build_public_signer_provisioner.py:212-253 | An image passes exactly if its records are readable, in range and free of conflicts, options and bank are as reviewed, the vector points at loaded code, and the source identity is spelled somewhere |
| MaintenanceMeaning.AbsorbMeaning | tools/build_public_signer_provisioner.py:215-230 | The record loop accepts exactly the files whose lines are proper (blank, no data record, or data wholly inside one reviewed range) and agree, and collects exactly what they write |
| MaintenanceMeaning.ImageMeaning | tools/build_public_signer_provisioner.py:212-253 | With the check of the memory: an image passes exactly if its lines are proper and agree and the memory that they denote is a reviewed one, whatever their order |
| MaintenanceMeaning.ShaIsHex | tools/build_public_signer_provisioner.py:212-214 | The source identity is forty lower-case hexadecimal digits |
| PagedListing.ListPages | tools/verify_ota_aws_state.py:342-425 | The marker loop ends on every server with finitely many markers and returns the pages it followed or the first error |
| PagedListing.ListingIsComplete | tools/verify_ota_aws_state.py:342-425 | Against a bucket that pages a fixed sequence the listing is exactly the pages in order |
| PagedListing.PageIsReadWhole | tools/verify_ota_aws_state.py:371-404 | A page is read whole: every version in order, then every delete marker, nothing else |
| PagedListing.LoopCheckIsExact | tools/verify_ota_aws_state.py:419-424 | On a bucket whose replies depend on the marker alone, the repeated-marker error is raised exactly if following the markers would never end |
| PagedReplies.PageIsExact | tools/verify_ota_aws_state.py:363-424 | What the loop makes of one reply, in every case: which error, the last page, or a page with exactly its entries and the marker, key and version, that the server named |
| PagedReplies.VersionsAreAllListed | tools/verify_ota_aws_state.py:342-425 | Against a server that answers the request for each page with a proper page that is truncated unless it is the last and names the next one, the listing is the versions and then the delete markers of every page, in page order |
| PagedReplies.KeysPageIsExact | tools/verify_ota_aws_state.py:446-478 | The same cases for a page of current keys |
| PagedReplies.KeysAreAllListed | tools/verify_ota_aws_state.py:428-480 | The same completeness for the current keys |
| PagedListing.ListPrefixVersions | tools/verify_ota_aws_state.py:342-425 | Whatever the server sends, every listed entry is below the prefix and has a version id |
| PagedListing.ListCurrentKeys | tools/verify_ota_aws_state.py:428-480 | The same loop over continuation tokens; every listed key is below the prefix |
| OtaMeta.RootsAreDisjoint | tools/verify_ota_aws_state.py:285-339 | For slash-free names a key lies below the root of one Thing, one kind and one update id only |
| OtaMeta.NamespacesAreDisjoint | tools/verify_ota_aws_state.py:285-339 | No two journals that pass the checks own a common object unless Thing and update id agree, for slash-free names |
| OtaMeta.SlashedNamesCollide | tools/verify_ota_aws_state.py:313-339 | With slashes in a Thing name two runs can have the same checked source key |
| OtaMeta.ValidatorsAgree | tools/verify_ota_aws_state.py:125-196 | The two separately written validators agree: a journal loads for cleanup exactly if it has a region and a resource and its identity is sound, and loads as complete exactly if it also has all snapshot fields |
| OtaMeta.JournalIsExact | tools/verify_ota_aws_state.py:125-339 | What both come to: a journal loads for cleanup exactly if it has a region, an update or a job, and a sound identity (bucket and key together, below the root of the named Thing and update; an output prefix below its root for AWS Signer only), and as complete exactly if it also names Thing, update, job and bucket |
| OtaMeta.KeysAreText | tools/verify_ota_aws_state.py:285-339 | A source key is checked exactly to be an object below ota/THING/source/ID/, an output prefix to be a folder at or below ota/THING/signed/ID/ |
| OtaMeta.CleanupResources | tools/verify_ota_aws_state.py:512-528 | The list names exactly the resources that cleanup checks |
| OtaReconcile.Reconcile | tools/verify_ota_aws_state.py:628-902 | Problems are found exactly if a recorded field is contradicted; then the journal stays as it was, otherwise its gaps are filled |
| OtaReconcile.ReconcileSource | tools/verify_ota_aws_state.py:796-898 | The source comparison passes exactly if the one file of the update is the journaled object, or a failed creation left the files out |
| OtaReconcile.RecordedFieldsStay | tools/verify_ota_aws_state.py:900-902 | Enrichment is monotone: apart from the status no recorded field changes |
| OtaReconcile.EnrichmentKeepsOwnership | tools/verify_ota_aws_state.py:628-902 | An enriched journal owns the same objects, and is accepted if it was before |
| OtaReconcile.EnrichmentIsIdempotent | tools/verify_ota_aws_state.py:628-902 | Comparing again with the same reply succeeds and changes nothing |
| OtaReconcile.AcceptedRepliesAgree | tools/verify_ota_aws_state.py:628-902 | Two replies accepted one after the other agree on job, signer job and source version wherever both state them |
| OtaWaits.WaitForDiscovery | tools/verify_ota_aws_state.py:1202-1240 | Discovery ends, only reads, and returns only final states; it gives up on a moving update only after the timeout; on a healthy service it sees pending work finish |
| OtaWaits.WaitUntilOtaAbsent | tools/verify_ota_aws_state.py:1186-1199 | The wait ends, only reads, reports absence only if the update is gone, and presence only after the timeout |
| OtaWaits.WaitUntilJobAbsent | tools/verify_ota_aws_state.py:1186-1199 | The same for the job |
| OtaWaits.WaitUntilKeyAbsent | tools/verify_ota_aws_state.py:483-502 | The wait ends, changes nothing, reports absence only if no version and no delete marker of the key is left, and presence only after the timeout |
| OtaCleanup.WaitForSigningJob | tools/verify_ota_aws_state.py:985-1018 | The wait ends and returns only a terminal job whose identity, source and output match the journal |
| OtaCleanup.ReplyDecides | tools/verify_ota_aws_state.py:905-1018 | One reply of AWS Signer is waited on exactly while it is about our job and source and in progress, and lets cleanup go on exactly if that job failed, or succeeded with its output below the journaled prefix |
| OtaCleanup.DeleteUpdate | tools/verify_ota_aws_state.py:1414-1457 | Exactly the deletion of the journaled update is issued; only that update and its job change; absence is reported only if true; a healthy service always gets there |
| OtaCleanup.DeleteIotJob | tools/verify_ota_aws_state.py:1459-1514 | Only the journaled job changes; it is deleted if waiting is not enough |
| OtaCleanup.DeleteListed | tools/verify_ota_aws_state.py:1518-1598 | What is issued is exactly this, read off the replies: a deletion of every listed version and of the journaled one even if the listing misses it, or, with no version known, of the current object if the service says there is one; errors are reported exactly if a call failed |
| OtaCleanup.DeleteSource | tools/verify_ota_aws_state.py:1516-1617 | Only the exact source key changes; absence means no version is left, and is denied only after an error or the timeout; a healthy service always gets there |
| OtaCleanup.DeletePass | tools/verify_ota_aws_state.py:1660-1727 | One pass issues exactly one deletion for every listed version and one for every listed key without a version, in order, failures notwithstanding, and reports errors exactly if a call failed; it touches only keys below the prefix; on a healthy service nothing that was listed is left |
| OtaCleanup.ListBelow | tools/verify_ota_aws_state.py:1624-1645 | Both listings of one turn are empty without an error only if nothing is below the prefix; if nothing was published in between, the versions are all there is |
| OtaCleanup.DrainPrefix | tools/verify_ota_aws_state.py:1619-1735 | Absence is reported only if nothing is below the prefix once the window is over; without an error the drain gives up only at a listing past the deadline that follows three turns each of which deleted something and ended past the deadline, read off the replies and the log; on a service that answers it ends with an empty prefix unless at least two of its listings found something newly published; it touches only keys below the prefix |
| OtaCleanupState.DiscoverUpdate | tools/verify_ota_aws_state.py:1349-1372 | Discovery passes exactly if an answer was heard that is "not found" or a reply that contradicts no recorded field; nothing is changed meanwhile |
| OtaCleanupState.Preflight | tools/verify_ota_aws_state.py:1334-1412 | No error exactly if the metadata is sound, discovery heard no update or one that contradicts nothing, and a known signing job was heard to have finished as ours; the errors are those of the first check that failed; nothing is changed |
| OtaCleanupState.HonestReplyIsCompatible | tools/verify_ota_aws_state.py:628-902 | The exact condition under which an honest reply about the journaled update lets cleanup go on |
| OtaCleanupState.ConfinedSteps | tools/verify_ota_aws_state.py:1414-1735 | All removals together leave every other update, every foreign job and every object outside the namespace as it was |
| OtaCleanupState.CleanupState | tools/verify_ota_aws_state.py:1328-1772 | Blocked exactly if metadata, discovery, identity or signer fail, judged by the replies that the service gave; no mutation without all four, and on an honest service only if the live update agrees; the reported actions are exactly the mutations issued, all of them owned; passed means every checked resource is really gone and no error occurred; a healthy service leaves nothing behind of a run that is not blocked, with AWS Signer unless it goes on publishing, and reports nothing but a submission that the journal does not know |
| OtaRerun.CleanUpAgain | tools/verify_ota_aws_state.py:1328-1772 | Any number of cleanups on a failing service, then one on a service that answers: the last one is blocked exactly if the update is left undeletable and without a job; otherwise it passes, update and source are gone, and of the jobs it leaves exactly those that neither the journal nor the update names any more |
| OtaRerun.UnknownJobStays | tools/verify_ota_aws_state.py:1459-1514 | A run that recovers removes a job exactly if the journal names it or the existing update does |
| OtaRerun.JobCanBeLeftBehind | tools/verify_ota_aws_state.py:1414-1457 | From every recoverable journal that names no job, a failing service can delete the update without its job; the journal then still recovers, and the job stays |
| OtaRerun.StuckDisagrees | tools/verify_ota_aws_state.py:628-902 | An update that failed to be deleted and names no job is refused by the comparison, whatever an honest reply leaves out |
| JournalFile.Journal.WriteJson | tools/create_bg96_ota_update.py:39-57 | A failed write leaves the old journal or the new one |
| OtaCreate.FirstJournalIsAccepted | tools/create_bg96_ota_update.py:229-271 | The journal written before the first mutation is accepted for cleanup exactly if region, Thing name and bucket are not empty, which the creator does not check |
| OtaCreate.Upload | tools/create_bg96_ota_update.py:245-297 | At every stop of the upload the crash invariant holds, whether or not the update id is in use |
| OtaCreate.Submit | tools/create_bg96_ota_update.py:344-355 | At every stop of the submission, lost responses included, the crash invariant holds; an id in use is refused, with the request journaled and nothing else changed |
| OtaCreate.WaitForOta | tools/create_bg96_ota_update.py:131-152 | Journaling every observation keeps the journal true of the update; without failures a final state is reached in time |
| OtaCreate.Create | tools/create_bg96_ota_update.py:202-387 | The crash invariant at every stop; at most one upload and then one creation; an exit code means that every journal write succeeded and a final state is journaled, and it is 0 exactly for a complete update, which the journal then identifies; without failures the run gets there exactly if the id was not in use and the service completes the update; an id in use is found out only after the upload |
| OtaRecovery.SoundMeansRecoverable | tools/create_bg96_ota_update.py:245-381 | The crash invariant of an unused id is what the cleanup tool asks of a journal |
| OtaRecovery.JournalsAreRefused | tools/create_bg96_ota_update.py:229-271 | A journal of the run, at whatever stage, is refused by cleanup exactly if region, Thing name or bucket is empty |
| OtaRecovery.UsedIdBlocks | tools/create_bg96_ota_update.py:344-355 | An id in use for which every honest reply contradicts the journal: cleanup is blocked and the upload stays |
| OtaRecovery.UsedIdDeletes | tools/create_bg96_ota_update.py:344-355 | An id in use for which every honest reply passes: cleanup deletes an update that the run did not create |
| OtaRecovery.NeverRestored | tools/verify_ota_aws_state.py:1328-1772 | Once the update was asked for under a used id, neither a blocked nor a passing cleanup puts the service back |
| OtaRecovery.CreateThenCleanUp | tools/verify_ota_aws_state.py:1328-1772 | For custom signing: however the creator ends, nothing was done, or its journal is accepted (exactly if region, Thing name and bucket are not empty), and one cleanup on a service that stops failing restores updates, jobs and all objects but the source key, of which no version is left, exactly if the id was not in use or the creator stopped before asking for the update |
| ThingAlias.AliasNameDecides | tools/manage_ephemeral_iot_thing.py:112-150 | The name rules reduce to one: the alias is base, "-ota-", pipeline, "-" and job, over the allowed characters and at most 128 of them |
| ThingAlias.AliasNamesAreDistinct | tools/manage_ephemeral_iot_thing.py:143-150 | Two runs on one base share an alias name only if pipeline and job agree |
| ThingAlias.ExpectedArnIsTheAliasArn | tools/manage_ephemeral_iot_thing.py:165-168 | The predicted ARN is the one the service gives the alias |
| ThingAlias.ExpectedArnIsExact | tools/manage_ephemeral_iot_thing.py:165-168 | The predicted ARN is the base ARN with its last part replaced, for ARNs of Things only |
| ThingAlias.BuildAliasPlan | tools/manage_ephemeral_iot_thing.py:231-284 | A plan exists exactly if the names belong together and the base holds one certificate, not exclusively |
| ThingAlias.VerifyReady | tools/manage_ephemeral_iot_thing.py:385-412 | The final look passes exactly if alias and base are as announced |
| ThingAlias.MakeAlias | tools/manage_ephemeral_iot_thing.py:343-418 | The crash invariant at every stop; without write failures the journal is never behind; ready means that no call and no write failed and the alias is exactly as announced, and without failures it gets ready |
| ThingAlias.CreateAlias | tools/manage_ephemeral_iot_thing.py:302-424 | An existing Thing is never adopted or changed; the crash invariant holds wherever the run stops; without failures a planned alias gets ready, or the collision is journaled |
| AliasCleanup.VerifyAlias | tools/manage_ephemeral_iot_thing.py:496-587 | On an answering service the checks pass exactly if the journal is sound, the base keeps its certificate, and the alias is gone or exactly as journaled |
| AliasCleanup.CleanupAlias | tools/manage_ephemeral_iot_thing.py:483-646 | No mutation unless ARN, attributes and principals are exactly the journaled ones; only the alias changes; complete means that no mutation failed, it is gone and the base keeps its certificate; the exact condition on an answering service |
| AliasCleanup.ProgressKeepsVerified | tools/manage_ephemeral_iot_thing.py:483-646 | What an interrupted cleanup leaves is still verified, so it can be run again |
| AliasCleanup.PlanIsAccepted | tools/manage_ephemeral_iot_thing.py:496-529 | A planned journal is accepted by cleanup exactly if the region is not empty and the certificate ARN says :cert/ once; a Thing that has the name already passes exactly if its ARN, attributes and principals are the announced ones |
| AliasCleanup.TwoCertificatesInOneArn | tools/manage_ephemeral_iot_thing.py:253-254 | A complete plan that creation journals and cleanup refuses at every status |
| AliasCleanup.CollisionIsCleanable | tools/manage_ephemeral_iot_thing.py:326-334 | A plan whose name is taken by the finished alias of an earlier attempt: creation refuses it, and with the journal that it leaves cleanup deletes it |
| AliasCleanup.RecoverAlias | tools/manage_ephemeral_iot_thing.py:302-646 | From any stop of the creation, any number of interrupted cleanups and then one on an answering service: complete exactly if the surviving journal is cleanable, which after a first run under the name is decided by a region that is not empty, :cert/ once in the certificate ARN, and a Thing that had the name looking like the alias; then nothing of that name is left, and with a sound journal or a taken name all Things are as before exactly if the name was free or the journal does not verify the Thing that had it |
| PolicyLifecycle.VerifyOwnedPolicy | tools/manage_rx671_ota_event_policy.py:397-432 | Success means that identity, document, tags, the single default version and the targets are the expected ones |
| PolicyLifecycle.AwaitDetached | tools/manage_rx671_ota_event_policy.py:475-487 | The first retry loop ends after at most 61 looks, changes nothing, succeeds only if no target is left, and gives up only after a failed call, on a foreign target, or after all its waits |
| PolicyLifecycle.DeleteWithRetries | tools/manage_rx671_ota_event_policy.py:488-507 | The second retry loop makes at most 61 delete calls, succeeds only if the policy is gone, and gives up only after a failed call or the last of them |
| PolicyLifecycle.DetachOwned | tools/manage_rx671_ota_event_policy.py:453-474 | The principal is detached only from a verified policy, and only if it is listed as a target |
| PolicyLifecycle.DeleteOwnedPolicy | tools/manage_rx671_ota_event_policy.py:453-510 | Detach and delete only after full verification, and nothing at all on a policy that is not owned; deletion is asked for only once no target is left; no other policy or attachment changes; a normal return means that no call failed, the policy is absent and the report is what was issued; where the waits outlast the lag an owned policy is always deleted |
| PolicyRuns.MakePolicy | tools/manage_rx671_ota_event_policy.py:521-579 | At every stop only the run's own policy can have appeared; at most one creation and then one attachment are issued |
| PolicyRuns.Create | tools/manage_rx671_ota_event_policy.py:513-602 | An existing policy is never adopted; a failure after the reported creation leaves no policy or reports an incomplete rollback, and is journaled as a collision or an error; a complete rollback can hide only a lost response; ready means that no call and no write failed, and without failures it gets ready; under the credentials of another account it leaves a policy that is not owned |
| PolicyRuns.Cleanup | tools/manage_rx671_ota_event_policy.py:605-648 | Complete means absent and that no call failed; mutations only on a verified policy; the service conditions under which it always completes |
| PolicyRuns.CreateThenCleanUp | tools/manage_rx671_ota_event_policy.py:513-648 | Whatever creation did and however often cleanup was interrupted, one cleanup on an answering service leaves all policies as before exactly if the name was free or the policy that had it is not an owned one, which is then deleted; with the name free and creation answered, it completes exactly if the context names the account of the credentials |
| PolicyRuns.EarlierAttemptIsDeleted | tools/manage_rx671_ota_event_policy.py:605-648 | In every account the policy of an earlier finished attempt of the same job is such an owned one |
| PolicyContext.MatchIsExact | tools/manage_rx671_ota_event_policy.py:31-33 | The pattern matches exactly the certificate ARNs, with unique groups |
| PolicyContext.ContextIsExact | tools/manage_rx671_ota_event_policy.py:194-269 | A context is built exactly for a plan whose ids and names are those of its own pipeline job, a Thing journal of the same job, region and Thing that is ready where that is asked for, and a certificate of that region; and it names the policy, tags and topics of that job in the account of the certificate |
| PolicyContext.NamesAreOwn | tools/manage_rx671_ota_event_policy.py:194-222 | The checks on ids and names reduce to one on the lengths of pipeline and job |
| PolicyContext.CleanupSeesTheSamePolicy | tools/manage_rx671_ota_event_policy.py:194-269 | Cleanup, which does not ask for a ready alias, works on the policy that creation made |
| PolicyContext.PolicyIsInTheCertificateAccount | tools/manage_rx671_ota_event_policy.py:243-252 | The policy ARN lies in the account and region of the certificate |
| PolicyContext.DocumentPinsJob | tools/manage_rx671_ota_event_policy.py:168-191 | No policy document is right for two jobs |
| PolicyContext.PolicyNamesAreDistinct | tools/manage_rx671_ota_event_policy.py:204-218 | Two runs never share a policy name |

## Left out

- Subprocesses, the AWS CLI, JSON text, the file system, pyserial and threads: each is an abstract call that fails, answers or stops, or a step of the interleaving.
- ECDSA, SHA-256, X.509 and PEM: signing and verification are parameters of the builders.
- Text tolerance of Python's number parsing (blanks, signs, underscores, non-ASCII digits) and line stripping: S-record lines are stripped strings, and numbers are ASCII digits.
- Journal fields that are not strings: a field is a string or missing.
- The memory layout table of the boot bundle and the .prm layout files: the bases are parameters or the constants of the builders.
- PEM rejection and the JSON report of `validate_image`; the sorting of addresses is a parameter.
- Waiting inside `read` and `stop`: a wait is the end of a step; the reader's thread join is one step.
- Status publication while FreeRTOS asserts fail, and the flash callback.
- OtaRecovery.CreateThenCleanUp: putting the service back is claimed for custom signing; for AWS Signer `OtaCleanupState.CleanupState` says what is removed, and a submission that was never journaled is reported as an error.
- Listings that miss an entry and "not found" replies that are wrong: both are taken to be true when they arrive; actors other than AWS Signer do not interfere.
- OtaCloud.Cloud.CreateOtaUpdate: the service answers and stores a creation as pending, never directly as finished, because the next look may finish it.
- EventPolicy.PolicyCloud.Attach: an attachment is visible at once; only detachments lag.
- The snapshot command with its verdict, and the recovery of partial snapshot metadata: they only read.
- `verify_journal`, `plan_alias` and the path template expansion: small closed helpers.
- MQTT, tinycbor, corePKCS11, littlefs, provisioning, monitoring and build scripts.
