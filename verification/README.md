# Verification of the Correlator pipeline and the endpoint codecs

This Dafny project models the parts of the repository in which evidence can be lost, duplicated or misread, and proves
what they are for. Code that updates state in place is modelled by classes and methods with loops
(`LogTailer`, `UnifiedStreamEngine`, the poll loop `Monitor`, `CorrelationEngine`, `CorrelatedSnapshotWriter`, the file
endpoint's event queue and log aggregator, and the decoder loops). Each method is proved equal to a function of its inputs
or of the old state, and the theorems are about those functions.

- **Delivery** (`pipeline`, `at_least_once`, `fixed_origin`, `unrecorded_crash`, `correlator`). Files grow, tailers read, the
  engine groups, groups are logged, offsets are committed only when nothing is pending, and the process may crash at any step
  and restart from its checkpoints with an empty engine. Counted from the first bootstrap of the run, what a checkpoint skips
  has been delivered and everything else is read again, unless a crash comes after a bootstrap and before its first written
  checkpoint; that condition is exact.
- **Grouping** (`unified_*`, `evidence`, `evidence_graph`). The unified engine's invariant ties every member of every group
  to the accepted records it stands for. From it follow the spanning trees, the single home of each record, conservation of
  counts, and unique emitted ids, after any sequence of lines and drains. What is a duplicate, a repeat, a connection and a
  finished story is stated on the fields of the lines and in milliseconds (`unified_identity`, `unified_activity`,
  `unified_matches`, `unified_drain`, `evidence_exact`, `evidence_fields`).
- **Tailing** (`line_split`, `line_printer`, `tailer_*`, `log_tailer`). Reading in chunks is the same as splitting the whole
  file, and what loggers print, with either line ending, is read back.
- **Correlation** (`correlation_*`). The two-pointer scan refines a naive one. A group's lines tell one growing story that
  ends with its final line. Related records do not stay apart unless a
  limit of the engine is reached.
- **Codecs and decoders** (`json_*`, `envelope`, `xml_*`, `utf16_text`, `base64`, `hashing`, `hash_digits`, `dns_*`, `tls_*`).
  Printer and parser pairs of different programs are inverse to each other; binary decoders agree with the wire layout of
  their standards, and messages written byte by byte are read back.
- **Aggregates and queues** (`snapshot_*`, `file_queue`, `file_arrivals`, `file_log`, `file_bursts`). Incremental state equals
  recomputation, and counters account for every event.

A `string` holds one character per byte. Clock readings, directory listings, the iteration order of hash maps, the order
`std::sort` gives to equal scores, and the outcome of I/O calls are parameters, constrained only by what the source can rely on.

## What turned out false, and when it holds

- *What a checkpoint skips has been delivered* fails when the bootstrapping call could not write its checkpoint and the process
  then crashes: bootstrap mode is over whether or not the checkpoint was written (CORRELATOR/log_tailer.cpp:159-162), and
  without a checkpoint the next process bootstraps again and skips what was added in between (`LinesCanBeLost`). A crash is
  harmless if and only if every source that has finished its bootstrap has a written checkpoint (`CrashIsHarmlessExactly`).
- *"Final" is final* (CORRELATOR/correlation_engine.h:171-175) fails when a record without a time stands at the front of a
  ring: `PruneStale` stops there, an old linked record stays, and a closed group id is published again
  (`FinalCanReturn`). Inputs in order that all carry a time are enough (`FinalIsFinalOnTimedInput`). Ageing leaves no
  record that refers to a closing group if and only if no record without a time stands before such a record
  (`AgeingIsSafeExactly`), and a record left behind publishes the closed id again as soon as it joins a record without a
  group (`HeldBackReturns`, in a whole cycle `CycleReturns`). Which inputs make a held-back record join is not
  characterised, so the exactness is of the ageing step, not of the published lines.
- *The prefilter only saves work* fails for USB sessions longer than six hours less five seconds (`LongSessionsDiffer`) and
  for times before the epoch (`NegativeTimesDiffer`). Both conditions are exact (`PrefilterExact`, `SameChoiceExactly`).
- *Compressed DNS names over TCP*: pointers are counted from the start of the buffer, length prefix included, so every
  pointer is followed to two bytes in front of its target (`CompressedIsReadEarly`, on a whole response
  `CompressedIsMisread`); responses without pointers are unaffected (`UncompressedIsFramed`).
- *A replaced file is read from its beginning* holds exactly when it is shorter than what was read of the old one
  (`ReplacementIsNoticedExactly`).
- An oversized file event empties the whole queue before it is dropped itself (`OversizedEmptiesQueue`).
- CORRELATOR/json_fields.h:22-29 says that strings are not un-escaped; the code decodes them, and the model follows the code.
- The combination examples are the first five ids; the comment in CORRELATOR/correlated_snapshot_writer.h says most recent first.

## Model

Theorems come first; the rows from the first method on say that the loops and classes do what the functions of the theorems say.

| member | source | states |
|---|---|---|
| FixedOrigin.NothingIsLost | CORRELATOR/main.cpp:369-411 | At-least-once delivery over every run of file growth, source reads with any listing, drains, commits and crashes from the first start, in which no crash comes between a bootstrap and its first written checkpoint: a process that starts now on a written checkpoint does not bootstrap again and resumes each file at its recorded offset, or at its beginning if the checkpoint does not name it; every whole line of the file, counted from where the file stood at the first bootstrap of the run, ends before that point and is not an object or carries the identity of a record in a logged group, or starts at or after it and is still to be read |
| UnrecordedCrash.CrashIsHarmlessExactly | CORRELATOR/log_tailer.cpp:159-162 | After any such run, a crash now is harmless, whatever follows it, if and only if every source that has finished its bootstrap has a written checkpoint |
| UnrecordedCrash.LinesCanBeLost | CORRELATOR/log_tailer.cpp:159-162 | Counterexample run from the first start: a bootstrap whose checkpoint is not written, a line read and accepted, a crash, a second bootstrap that records an offset behind the line, which no logged group holds |
| UnrecordedCrash.CrashLosesLine | CORRELATOR/log_tailer.cpp:159-162 | From any sound state in which a source has bootstrapped without a checkpoint, a crash, a new line and a saved bootstrap lose that line |
| FixedOrigin.OriginIsFixed | CORRELATOR/log_tailer.cpp:90-96 | The point from which the lines of a source are promised never changes once its first bootstrap has set it |
| FixedOrigin.EveryReadLineIsAccountedFor | CORRELATOR/main.cpp:374-407 | Between commits of such a run: every whole line of a tracked file from its origin on that ends before its safe offset is not an object, was delivered, or has the identity of a record the running engine accepted |
| AtLeastOnce.CheckpointedFile | CORRELATOR/log_tailer.cpp:172-210 | In every sound state of every run: the lines from where the tracking that the checkpoint recorded began up to the recorded offset are delivered, and a restart resumes exactly there |
| AtLeastOnce.EveryRunIsSound | CORRELATOR/main.cpp:369-450 | The pipeline invariant holds at every moment of every run, crashes included |
| AtLeastOnce.StepKeeps | CORRELATOR/main.cpp:369-450 | Each single step (growth, read, drain, commit, crash) keeps the pipeline invariant |
| AtLeastOnce.StepIsPossible | CORRELATOR/main.cpp:369-450 | Every enabled step can be taken: the history bookkeeping a read or drain asks for exists |
| AtLeastOnce.FirstStartIsSound | CORRELATOR/log_tailer.cpp:20-29 | The first start without a checkpoint satisfies the pipeline invariant, whatever is on disk |
| AtLeastOnce.CommittedSource | CORRELATOR/log_tailer.cpp:184-210 | A commit with nothing pending writes offsets below which everything has been delivered |
| AtLeastOnce.RestartedSource | CORRELATOR/log_tailer.cpp:172-182 | After a crash the tailer stands exactly at its checkpointed offsets and is sound there |
| AtLeastOnce.DrainedIsHandedOut | CORRELATOR/main.cpp:396-408 | With no pending group, every identity accepted so far belongs to a logged group |
| AtLeastOnce.NothingForced | CORRELATOR/unified_stream_engine.cpp:139-287 | A batch of lines that leaves nothing pending accepted nothing and forced nothing out |
| Pipeline.IngestAllCovers | CORRELATOR/unified_stream_engine.cpp:139-165 | After a batch, every line is not an object or its identity is among the accepted ones |
| Pipeline.PendingAfterAccept | CORRELATOR/unified_stream_engine.cpp:205-287 | An accepted record leaves at least one group pending |
| UnifiedRuns.EveryGroupIsATree | CORRELATOR/unified_stream_engine.cpp:227-287 | Every pending, forced-out or handed-out group is a spanning tree of its 1 to 16 members; connections run forward and join different endpoints; no connections exactly when there is one member |
| EvidenceGraph.EveryConnectionMatters | CORRELATOR/unified_stream_engine.cpp:244-280 | In such a tree leaving out any single connection disconnects the group |
| EvidenceGraph.ConnectedNeedsEdges | CORRELATOR/unified_stream_engine.cpp:244-280 | Connecting n members takes at least n - 1 connections |
| UnifiedRuns.EveryRecordHasOneHome | CORRELATOR/unified_stream_engine.cpp:139-328 | Each accepted record is stood for by exactly one member of exactly one pending, forced-out or handed-out group |
| UnifiedRuns.RecordsAreConserved | CORRELATOR/unified_stream_engine.cpp:139-328 | Represented = accepted = the sum of observation counts over all groups; each group count is the sum of its repeat counts; each repeat count is the number of records stood for |
| UnifiedRuns.OperationalStaysAlone | CORRELATOR/unified_stream_engine.cpp:154-217 | An operational record ends as a one-member, one-record group without connections |
| UnifiedRuns.NothingPendingMeansDelivered | CORRELATOR/unified_stream_engine.cpp:303-328 | With nothing pending every accepted record sits in a handed-out group |
| UnifiedRuns.EveryRunKeeps | CORRELATOR/unified_stream_engine.cpp:139-328 | After every sequence of lines and drains the engine invariant holds of a history that consists of exactly the records the run accepted, in order, and exactly the groups its drains handed out |
| UnifiedRuns.EmittedIdsNeverRepeat | CORRELATOR/unified_stream_engine.cpp:303-328 | Over every run no group id is handed out twice, and no handed-out group is still pending |
| UnifiedCounters.EveryLineIsCounted | CORRELATOR/unified_stream_engine.cpp:139-328 | Over every run each non-empty line was accepted, suppressed as a duplicate or counted as a parse failure; and each accepted record is a member of a pending, forced-out or handed-out group or a compacted repeat |
| UnifiedCounters.LineIsCounted | CORRELATOR/unified_stream_engine.cpp:139-287 | One line moves exactly one of these counters, adds one member or repeat when accepted, and every group it forces out is counted as a capacity flush |
| UnifiedSorting.SorterExists | CORRELATOR/unified_stream_engine.cpp:220-222 | A stable sort by falling score meets what the engine asks of sorting, so the hypothesis of every run can be met |
| UnifiedTheorems.IngestKeeps | CORRELATOR/unified_stream_engine.cpp:139-287 | One line keeps the invariant; it is accepted exactly unless it is empty, no object, or repeats an identity in the window (`UnifiedIdentity.LineIsAcceptedExactly` says by fields which lines those are) |
| UnifiedTheorems.DrainKeeps | CORRELATOR/unified_stream_engine.cpp:303-328 | A drain keeps the invariant and hands out what was forced out, then the due groups, once each; the others stay; a forced drain leaves nothing (`UnifiedDrain.DrainedExactly` says in numbers which are due) |
| UnifiedInvariant.PlaceKeeps | CORRELATOR/unified_stream_engine.cpp:167-287 | Placing an accepted record by repeat, new group, merge or full-group flush keeps the invariant |
| UnifiedInvariant.RememberKeepsWindow | CORRELATOR/unified_stream_engine.cpp:129-137 | The dedup window holds exactly the identities of the last 8192 accepted records |
| UnifiedJoin.JoinKeeps | CORRELATOR/unified_stream_engine.cpp:220-287 | Merging all fitting candidate groups and adding the record keeps trees, homes, counts and ids, also when the full target is flushed |
| UnifiedJoin.MergeAllKeeps | CORRELATOR/unified_stream_engine.cpp:227-254 | Any sequence of offset-shifted merges keeps the target a forest that the bridges close into a tree |
| UnifiedHistory.ForestBecomesTree | CORRELATOR/unified_stream_engine.cpp:277-280 | The new record bridged once to each merged tree makes one spanning tree |
| UnifiedHistory.AbsorbedBacked | CORRELATOR/unified_stream_engine.cpp:244-251 | Appending another group with shifted connection indexes keeps every connection between the members it joined |
| UnifiedHistory.FingerprintsTellKindsApart | CORRELATOR/unified_stream_engine.cpp:96-114 | An activity record never has the fingerprint of an operational one |
| UnifiedMerge.CandidatesSound | CORRELATOR/unified_stream_engine.cpp:189-203 | Each candidate is the strongest usable match of some activity group, the earliest among equals |
| UnifiedMerge.CandidatesComplete | CORRELATOR/unified_stream_engine.cpp:189-203 | Each activity group with a usable match gives a candidate |
| UnifiedMerge.CandidatesDistinct | CORRELATOR/unified_stream_engine.cpp:189-203 | No group gives two candidates |
| UnifiedMerge.BestFromScans | CORRELATOR/unified_stream_engine.cpp:193-200 | The scan of one group finds its strongest usable match or nothing |
| SnapshotTheorems.EngineGroupsAreTrees | CORRELATOR/unified_stream_engine.cpp:330-368 | A snapshot of any engine group with named endpoints is a tree with |members| - 1 countable connections, and is marked connected exactly when it has more than one member |
| TailerTheorems.EveryTailRunIsExact | CORRELATOR/log_tailer.cpp:31-170 | Over every schedule of growth, replacement and removal of files and of calls with any listings and byte limits, where a listed replaced file is shorter than what was read of it: the lines that the calls returned for a file since it was last started, each call's result cut into its portions, are the cleaned lines between its start and its safe offset, unless the file was replaced or removed since its last read |
| TailerTheorems.ResultIsPortions | CORRELATOR/log_tailer.cpp:31-170 | The result of a call is the portions of the listed files one after the other, in listing order, and each line of it belongs to one of them |
| TailerTheorems.ListedReads | CORRELATOR/log_tailer.cpp:81-158 | One call on listed files each of which is read soundly or has become shorter: each is kept or started over at its beginning, and the result is the lines they owe, in listing order |
| TailerTheorems.ReplacementIsNoticedExactly | CORRELATOR/log_tailer.cpp:99-137 | A replaced file is read as a new one exactly when it is shorter than what was read of it; otherwise what it holds before the last offset has no effect on the read |
| TailerTheorems.ListedDelivers | CORRELATOR/log_tailer.cpp:31-170 | One call with any listing, complete or not, returns exactly the lines between the old and new safe offset of every listed file, in listing order, and forgets the files the listing misses |
| TailerTheorems.CallDelivers | CORRELATOR/log_tailer.cpp:31-170 | With a complete listing no file is forgotten |
| TailerTheorems.ReadFileKeeps | CORRELATOR/log_tailer.cpp:91-157 | One read of one file: lines, safe offset, carried partial line and bytes consumed |
| TailerTheorems.ReadToTheEnd | CORRELATOR/log_tailer.cpp:91-157 | A file read to its end has delivered every complete line after its start, and carries exactly its unfinished tail |
| TailerTheorems.LinesGrow | CORRELATOR/log_tailer.cpp:139-157 | Consecutive stretches between line boundaries give consecutive lines |
| TailerTheorems.StartIsSound | CORRELATOR/log_tailer.cpp:172-182 | A tailer started on a checkpoint reads on from exactly the recorded offsets |
| LineSplit.SplitAnywhere | CORRELATOR/log_tailer.cpp:139-155 | Cutting the text anywhere and carrying the unfinished rest over changes no line |
| LineSplit.FinishedAndRest | CORRELATOR/log_tailer.cpp:139-157 | The carried rest is exactly the newline-free tail |
| LineSplit.LinesAreClean | CORRELATOR/log_tailer.cpp:150-152 | Returned lines are non-empty and hold no newline |
| TailerBudget.NeverOverLimit | CORRELATOR/log_tailer.cpp:80-137 | A call never reads more than its byte limit |
| TailerBudget.NewestIsNeverThrottled | CORRELATOR/log_tailer.cpp:123-125 | The newest file gets the smaller of its unread bytes and the whole limit |
| TailerBudget.OlderFilesShareFairly | CORRELATOR/log_tailer.cpp:125-132 | If the rest is at least 4096 bytes per older file, each older file reads at least an equal share of it or all it has |
| Evidence.EdgeIsSymmetric | CORRELATOR/correlation_engine.cpp:184-261 | An edge does not depend on the order of its two records |
| Evidence.MatchedEdge | CORRELATOR/correlation_engine.cpp:184-261 | The form of an edge: a matched one has a known reason, usable times, never two port records, a score of 70% to 100% of its weight, and a caveat exactly for bare proximity; an unmatched one is empty |
| Evidence.EdgeWindow | CORRELATOR/correlation_engine.cpp:184-254 | Lineage stays within its window, a bridge within the slackened session of a mounted device |
| Evidence.ScoreBounds | CORRELATOR/correlation_engine.cpp:122-130 | A score lies between 70% and 100% of its base weight |
| CorrelationOrder.FinalIsFinalOnTimedInput | CORRELATOR/correlation_engine.h:171-175 | Over every run judged by its inputs alone (clock and times of each endpoint do not go back, no line ahead of the clock, every line carries a time): after the final line of a group no line of it is published, its id names no live group, and no ring record refers to it |
| CorrelationOrder.TimedInputIsAdmissible | CORRELATOR/correlation_engine.cpp:284-314 | On such inputs no record is ever held back |
| CorrelationRuns.FinalIsFinal | CORRELATOR/correlation_engine.h:171-175 | The same over every run in which lines may lack a time but no cycle finds a record held back |
| CorrelationRuns.ExactlyOneFinalLine | CORRELATOR/correlation_engine.cpp:297-314 | Every group ever opened is live or has exactly one final line, which is its last |
| CorrelationRuns.EveryGroupIsSound | CORRELATOR/correlation_engine.cpp:316-391 | Every live group has 2 to 8 distinct members, revision |members| - 1, every member after the anchor justified by an earlier member of another endpoint, and was last shown as it is; at most 500 groups, 2000 records a ring, 4 partners a record |
| CorrelationRuns.EveryRunIsSound | CORRELATOR/correlation_engine.cpp:263-533 | The engine and log invariant holds after every admissible run |
| CorrelationRuns.AgeingIsSafeExactly | CORRELATOR/correlation_engine.cpp:284-314 | After pruning, no record refers to a group about to close if and only if no record without a time stands before a record of such a group |
| CorrelationRuns.TimesAreEnough | CORRELATOR/correlation_engine.cpp:284-295 | An engine all of whose records carry a time never holds a record back |
| CorrelationReturn.FinalCanReturn | CORRELATOR/correlation_engine.cpp:284-391 | Counterexample run from the fresh engine with six events in order: two lines and a partner, one of them without a time; a cycle that opens the group; a session line; a cycle that closes the group and publishes a line with one member and revision 1 under its id |
| CorrelationReturn.HeldBackReturns | CORRELATOR/correlation_engine.cpp:372-379 | Whenever a record that still refers to a closed group joins one without a group, on either side of the pair, a line of the closed group with revision 1 and one member is published again |
| CorrelationReturn.CycleReturns | CORRELATOR/correlation_engine.cpp:450-533 | If after ageing the first join of the first pair of rings is such a join, the cycle publishes that line right after its final lines |
| CorrelationReturn.PairReturns | CORRELATOR/correlation_engine.cpp:467-533 | The same from any later pair of rings of a cycle on |
| CorrelationOrder.EveryCycleIsNaive | CORRELATOR/correlation_engine.cpp:450-533 | Over every run whose times are in order, none before the epoch, and whose sessions fit the prefilter, a cycle equals the naive cycle |
| CorrelationRuns.CycleKeeps | CORRELATOR/correlation_engine.cpp:450-533 | A cycle keeps the invariant and publishes at most 100 growing lines |
| CorrelationPartners.NoPairTwice | CORRELATOR/correlation_engine.cpp:496-523 | Over every run, whatever is fed and when, no pair of records is joined twice, and partnership is mutual |
| CorrelationScan.TwoPointerIsNaive | CORRELATOR/correlation_engine.cpp:484-530 | On time-ordered rings whose matching pairs the prefilter admits, the two-pointer scan is the naive scan of the whole other ring |
| CorrelationScan.CycleIsNaive | CORRELATOR/correlation_engine.cpp:450-533 | A whole cycle of the fast scan equals that of the naive scan for an orderly engine |
| CorrelationScan.SameChoice | CORRELATOR/correlation_engine.cpp:486-511 | Each record chooses the same partner either way |
| CorrelationScan.PrefilterExact | CORRELATOR/correlation_engine.h:212-219 | The six-hour prefilter loses no bridge of a session record if and only if the session with its slack fits it |
| CorrelationScan.LongSessionsDiffer | CORRELATOR/correlation_engine.cpp:466-511 | Counterexample: a session longer than six hours is matched by the naive scan and missed by the fast one |
| CorrelationScan.SameChoiceExactly | CORRELATOR/correlation_engine.cpp:484-511 | On a time-ordered ring whose matching pairs the prefilter admits, both scans choose the same partner if and only if the window reaches the epoch or no record without a time stands between the slide position and the first joinable record |
| CorrelationScan.NegativeTimesDiffer | CORRELATOR/correlation_engine.cpp:484-511 | An input that fails that condition: with times before the epoch a record without a time ends the window early |
| CorrelationInvariant.IngestKeeps | CORRELATOR/correlation_engine.cpp:263-282 | A timely line keeps the invariant; the ring stays within 2000 |
| CorrelationInvariant.CloseOne | CORRELATOR/correlation_engine.cpp:297-314 | Closing an expired group with its final line keeps the invariant |
| CorrelationInvariant.PairKeeps | CORRELATOR/correlation_engine.cpp:466-530 | Scanning one pair of rings keeps the invariant and the cap of 100 joins |
| CorrelationRings.JoinKeeps | CORRELATOR/correlation_engine.cpp:513-528 | One join keeps the groups, both rings, all other rings and the log |
| CorrelationGroups.LinkChanges | CORRELATOR/correlation_engine.cpp:316-391 | A link changes nothing, or opens one group or extends one by exactly the records it gained |
| CorrelationGroups.LinkPlaces | CORRELATOR/correlation_engine.cpp:316-391 | Both linked records sit in their live groups afterwards |
| CorrelationGroups.LinkKeepsOthers | CORRELATOR/correlation_engine.cpp:316-391 | No other record is moved by a link |
| CorrelationLog.PublishKeeps | CORRELATOR/correlation_engine.cpp:519-523 | Publishing a changed group keeps the log: revisions of a group only grow |
| CorrelationLog.StoriesOnlyGrow | CORRELATOR/correlation_engine.cpp:316-391 | A later line of a group shows the earlier members first and has a higher revision unless final |
| Envelope.ExtractInvertsPrinter | CORRELATOR/json_fields.cpp:34-110 | For any identifier keys and arbitrary byte values printed with the escaper, extraction returns exactly the first value of the key |
| Envelope.EnvelopeReadsBack | CORRELATOR/evidence_envelope.cpp:72-85 | On a wrapped line the session, file and hash of the envelope are read back whatever the body holds, and the numbers exactly below ten to the 18 |
| JsonPrinter.ExtractFromObject | CORRELATOR/json_fields.cpp:34-110 | On a flat object extraction decodes exactly the first quoted field of the key, and finds nothing when there is none |
| JsonPrinter.ExtractFromPrefix | CORRELATOR/json_fields.cpp:34-110 | The same when arbitrary text follows the fields |
| JsonPrinter.EscapedReadsBack | CORRELATOR/unified_stream_engine.cpp:14-36 | Escaped text is read back as the original bytes |
| JsonPrinter.PlainReadsBack | CORRELATOR/evidence_envelope.cpp:77-83 | Text without quote and backslash needs no escaping |
| JsonNumbers.PrintedReadsBack | CORRELATOR/json_fields.cpp:8-32 | Exactly the integers of at most 18 digits are read back, longer ones are refused |
| JsonNumbers.NumberFromObject | CORRELATOR/json_fields.cpp:8-32 | A number request reads the first field of that name and no other |
| JsonNumbers.NumberFromPrefix | CORRELATOR/json_fields.cpp:8-32 | The same when arbitrary text follows the fields |
| JsonFields.NumberBound | CORRELATOR/json_fields.cpp:20-28 | A digit run of length n is below ten to the n, so 18 digits fit the source integer |
| XmlText.UnescapeInvertsEscape | APP/src/applog_decoder.cpp:540-557 | Five sequential replacing passes invert the one-pass escape, for every string |
| XmlText.PassUndoes | APP/src/applog_decoder.cpp:545-555 | Each pass undoes exactly its own entity and leaves the others |
| XmlText.EscapedHasNoMarkup | APP/src/applog_etw_collector.cpp:126-141 | Escaped text holds no markup character |
| XmlEvent.ScriptReadsBack | APP/src/applog_etw_collector.cpp:585-589 | The script block is read back from the built event for every script and path |
| XmlEvent.PathReadsBack | APP/src/applog_etw_collector.cpp:585-589 | So is the path |
| Utf16Text.FieldReadsBack | FILEEE/file_processor.cpp:776-838 | A field written from any UTF-16 units, anywhere in a flat object, is extracted as well-formed UTF-8 of the same scalar values with unpaired surrogates as U+FFFD |
| Utf16Text.LosslessIffWellPaired | FILEEE/file_processor.cpp:785-803 | Nothing is lost if and only if no surrogate is unpaired |
| Utf16Text.Utf8ReadsBack | FILEEE/file_processor.cpp:818-835 | The bytes written are well-formed UTF-8 (section 4 of RFC 3629) of exactly the scalar values |
| Utf16Text.ScalarReadsBack | FILEEE/file_processor.cpp:805-835 | One written scalar is decoded to its UTF-8 bytes |
| Base64.EncodedReadsBack | APP/src/applog_decoder.cpp:361-380 | Decoding the encoding (section 4 of RFC 4648) of any bytes yields them without zero bytes |
| Base64.DecodeInvertsEncode | APP/src/applog_decoder.cpp:361-379 | Block decoding inverts the encoding |
| Base64.CommandReadsBack | APP/src/applog_decoder.cpp:361-379 | An encoded ASCII command in UTF-16LE is recovered as typed |
| Base64.ByteCompleted | APP/src/applog_decoder.cpp:371-377 | The byte taken out after a shift is the one this character completes, whatever the high bits hold |
| DnsNames.LaidNameIsRead | NETOWRK ENDPOINT/protocol_decoder.cpp:37-73 | Any laid-out name (sections 3.1 and 4.1.4 of RFC 1035) that is printable, at most 253 dotted, and within 128 labels, hops and end, is read as its dotted labels; the width ends with the first pointer |
| DnsNames.ReadNameIsLaid | NETOWRK ENDPOINT/protocol_decoder.cpp:37-73 | Conversely whatever is read is such a name, laid out there |
| DnsNames.UncompressedIsAcceptable | NETOWRK ENDPOINT/protocol_decoder.cpp:37-73 | The step budget never rejects a printable name without pointers whose dotted form fits |
| DnsNames.EncodedNameReadsBack | NETOWRK ENDPOINT/protocol_decoder.cpp:37-73 | Every such name is read back from its encoding, wherever it stands |
| DnsNames.FramedName | NETOWRK ENDPOINT/protocol_decoder.cpp:55-57 | A name without pointers is unchanged behind a length prefix |
| DnsFraming.UncompressedIsFramed | NETOWRK ENDPOINT/protocol_decoder.cpp:141-215 | A laid-out response all of whose names have no pointers decodes the same behind its TCP length prefix |
| DnsFraming.CompressedIsReadEarly | NETOWRK ENDPOINT/protocol_decoder.cpp:50-56 | Every name with a pointer, behind the length prefix: its own labels are the same, and they are followed by the name that stands two bytes in front of the pointer's target; unframed they are followed by the name at the target |
| DnsFraming.CompressedIsMisread | NETOWRK ENDPOINT/protocol_decoder.cpp:55-57 | Counterexample: a 33-byte response with header, question and a compressed CNAME answer decodes to its name as a datagram and to an empty name over TCP |
| DnsMessages.ResponseReadsBack | NETOWRK ENDPOINT/protocol_decoder.cpp:141-215 | Every response laid out in its buffer, with possibly compressed names, decodes to what its records say, in order, joined with semicolons and cut only by the two limits (what the texts denote: `DnsAddresses.EveryAddressReadsBack`) |
| DnsMessages.CutIsUnique | NETOWRK ENDPOINT/protocol_decoder.cpp:178-212 | The cut is the only place before which everything fits and at which the list ends, 16 are shown or the text exceeds 2048 |
| DnsMessages.AnswersAreBounded | NETOWRK ENDPOINT/protocol_decoder.cpp:178-214 | The output never exceeds 2308 characters |
| DnsQueries.LaidQueryIsDecoded | NETOWRK ENDPOINT/protocol_decoder.cpp:98-136 | Every query for a legal name without pointers is decoded to its dotted labels and type |
| DnsQueries.DecodedQueryIsLaid | NETOWRK ENDPOINT/protocol_decoder.cpp:98-136 | And nothing else is decoded |
| DnsQueries.ReadersAgree | NETOWRK ENDPOINT/protocol_decoder.cpp:37-136 | The query decoder and the name reader agree on the name |
| TlsSni.HelloIsDecoded | NETOWRK ENDPOINT/protocol_decoder.cpp:217-279 | For every laid-out ClientHello (section 7.4.1.2 of RFC 5246, section 3 of RFC 6066) with arbitrary session id, ciphers, compression and other extensions, the result is the first non-empty host name |
| TlsSni.DecodedIsSlice | NETOWRK ENDPOINT/protocol_decoder.cpp:217-279 | On any input, a result is a non-empty contiguous slice standing as a host name entry with its own length in front |
| SnapshotTheorems.AddGroupsKeeps | CORRELATOR/correlated_snapshot_writer.cpp:150-175 | After every call the state is what a recomputation from all groups ever added gives: totals, last 2000 groups, endpoints, edges, combinations |
| SnapshotTheorems.EdgeCountsAreTreeEdges | CORRELATOR/correlated_snapshot_writer.cpp:177-200 | For trees, all edge counts together are the members less one of all behavioural groups |
| SnapshotTheorems.EdgeCountsAddUp | CORRELATOR/correlated_snapshot_writer.cpp:177-200 | All edge counts together are the countable connections ever added |
| SnapshotTheorems.ReasonsAddUp | CORRELATOR/correlated_snapshot_writer.cpp:193-194 | Each edge count is the sum of its reason counts |
| SnapshotTheorems.IncidentsAddUp | CORRELATOR/correlated_snapshot_writer.cpp:202-222 | All combination counts together are the number of behavioural groups |
| SnapshotTheorems.HeldAreLast | CORRELATOR/correlated_snapshot_writer.cpp:173-173 | Trimming call by call keeps the last 2000 of all groups |
| SnapshotTheorems.StrongestKeeps | CORRELATOR/correlated_snapshot_writer.cpp:196-199 | The strongest score is the maximum, with the confidence of the last link that reached it |
| SnapshotTheorems.CombosKeep | CORRELATOR/correlated_snapshot_writer.cpp:202-222 | Each combination counts its groups and keeps the first five ids as examples |
| SnapshotKeys.SameKeyIffSameEndpoints | CORRELATOR/correlated_snapshot_writer.cpp:205-214 | A combination row stands for exactly one set of endpoints |
| SnapshotKeys.SameEdgeKeyIffSamePair | CORRELATOR/correlated_snapshot_writer.cpp:182-190 | An edge row stands for exactly one unordered pair of endpoints |
| SnapshotKeys.EndpointsAre | CORRELATOR/correlated_snapshot_writer.cpp:204-206 | The endpoints of a group are its named endpoints, sorted, each once |
| FileQueue.NothingVanishes | FILEEE/file_monitor.cpp:229-278 | Over all interleavings of submitters and drains: the events that entered are exactly those the drains took, those queued, as many lost ones as the drop counter says and as many merged ones as the coalesce counter says; what the drains took, followed by the queue, is in order of arrival; submitted = waiting + coalesced + dropped + queued + taken; the character count is exact and both bounds hold |
| FileQueue.EnterKeeps | FILEEE/file_monitor.cpp:236-275 | The locked section keeps conservation, order, exact count and bounds; the event is coalesced exactly under the temp rule |
| FileQueue.RoomIsMinimal | FILEEE/file_monitor.cpp:254-267 | No more of the oldest events are dropped than needed |
| FileQueue.PoppedIsExact | FILEEE/file_monitor.cpp:262-264 | The saturating subtraction never saturates |
| FileQueue.DrainKeeps | FILEEE/file_monitor.cpp:418-430 | A drain takes the whole queue in order and leaves it empty with count zero |
| FileQueue.OversizedEmptiesQueue | FILEEE/file_monitor.cpp:254-272 | An event that can never fit still empties the queue before it is dropped |
| FileLog.EveryCallIsCounted | FILEEE/file_logger.cpp:125-174 | At every moment of every run of calls and flushes from the empty logger: the calls made with a key are the repeat counts written for it plus the pending one, and right after a flush they are all written |
| FileLog.EveryRunIsSound | FILEEE/file_logger.cpp:125-174 | At every moment of such a run the lines of every key, the pending one last, cut its calls into bursts, and at most 256 keys are pending |
| FileLog.CallsAreConserved | FILEEE/file_logger.cpp:125-174 | The same account in every sound state |
| FileLog.AggregatedKeeps | FILEEE/file_logger.cpp:125-167 | Each call keeps every key an exact account: its written lines and the pending one cut its calls into consecutive bursts with gaps of at most two seconds, each line carrying the text and severity of its first call; at most 256 keys stay pending |
| FileLog.FlushKeeps | FILEEE/file_logger.cpp:269-283 | Flushing changes no account |
| FileLog.FlushAllEmpties | FILEEE/file_logger.cpp:169-174 | A full flush leaves nothing pending |
| FileLog.LateBranchIsDead | FILEEE/file_logger.cpp:137-151 | After the flush a pending record of the key is never late, so the branch that writes it is never taken |
| FileLog.OldestIsOldest | FILEEE/file_logger.cpp:154-161 | The record written out to make room was seen longest ago |
| UnifiedIdentity.LineIsAcceptedExactly | CORRELATOR/unified_stream_engine.cpp:86-165 | Over every run of lines and drains with endpoint names free of bars: the next line is accepted if and only if it is not empty, is an opening brace and a later closing one in blanks, and none of the last 8192 accepted lines of its endpoint is the same evidence: same session and record id where one of the two is stamped with both, else same content hash where one has one, else same hash of the first 4096 bytes |
| UnifiedIdentity.WrappedIsAcceptedExactly | CORRELATOR/unified_stream_engine.cpp:86-165 | After every run, a line wrapped by a writer is accepted if and only if its endpoint, session and record id (below ten to the 18) are not among the last 8192; what the body says makes no difference |
| UnifiedIdentity.BothAreAccepted | CORRELATOR/unified_stream_engine.cpp:86-165 | Two wrapped lines of one endpoint, one after the other: the first is accepted, and the second exactly if its session or its record id is another one |
| UnifiedIdentity.IdentityExactly | CORRELATOR/unified_stream_engine.cpp:86-94 | For all records whose endpoint and record id hold no bar, identities are equal exactly when the identifying fields are |
| UnifiedIdentity.ObservedExactly | CORRELATOR/unified_stream_engine.cpp:151-165 | The time of a line is its own positive time field or else the observation time; it is operational exactly when it reports collector health, startup or a control acknowledgement |
| UnifiedActivity.SemanticKeyExactly | CORRELATOR/unified_stream_engine.cpp:96-114 | For all records whose texts hold no bar, the text that is hashed into the fingerprint is the same if and only if endpoint, kind, processes, path and the 22 detail fields are |
| UnifiedActivity.SameActivityIsCounted | CORRELATOR/unified_stream_engine.cpp:165-187 | After every run, an accepted activity record that agrees in these fields with the first record of a pending activity member last seen at most 5000 ms away is counted into a member |
| UnifiedMatches.LineIsPlaced | CORRELATOR/unified_stream_engine.cpp:165-287 | Each accepted line, by its fields: a status line opens a story of its own; a repeat is counted into one member; a record connected to a pending story joins the story of its best match and the other connected stories that fit; any other opens a story |
| UnifiedMatches.RelatedIsJoined | CORRELATOR/unified_stream_engine.cpp:189-287 | The third of these: which stories are joined, at most 16 members together, which stay, and when a full story is forced out |
| UnifiedMatches.UnrelatedIsAlone | CORRELATOR/unified_stream_engine.cpp:189-217 | A record opens a story of its own exactly when no pending story is connected to it; with 512 pending the least recently active one is forced out |
| UnifiedMatches.RepeatIsCounted | CORRELATOR/unified_stream_engine.cpp:169-187 | A repeat goes to the first pending member, in id order, of the same endpoint and fingerprint at most 5000 ms away, and changes nothing else |
| UnifiedMatches.UsableExactly | CORRELATOR/unified_stream_engine.cpp:116-127 | Two records are connected exactly when they match within 2000 ms at different endpoints, where a shared process id of at most 4 needs equal paths and a shared parent of at most 4 is not enough |
| UnifiedDrain.DrainedExactly | CORRELATOR/unified_stream_engine.cpp:303-328 | A drain hands out the forced-out groups and then, in id order, exactly the pending groups that have been quiet for 3000 ms or were created 30000 ms ago, or all when forced; exactly the others stay |
| UnifiedDrain.NothingPendsForLong | CORRELATOR/unified_stream_engine.cpp:303-328 | After every drain of every run, a group still pending was last touched by a line of the run less than 3000 ms before and opened by one less than 30000 ms before, however busy it is |
| UnifiedDrain.EveryStoryWasOpened | CORRELATOR/unified_stream_engine.cpp:205-217 | Each pending group was opened by the line of the run that took its id, and its creation time is the observation time of that line |
| UnifiedDrain.EveryStoryWasTouched | CORRELATOR/unified_stream_engine.cpp:169-287 | Each pending group stands as a line of the run left it, and its activity time is the observation time of that line |
| UnifiedDrain.LineTouches | CORRELATOR/unified_stream_engine.cpp:139-287 | After one line each pending group was pending before as it is, or was opened or added to by this line, and its activity time is the observation time |
| LinePrinter.DocumentReadsBack | CORRELATOR/log_tailer.cpp:139-157 | For every list of lines without newline, each ended by a newline or by a carriage return and a newline (a line before a bare newline does not end in a carriage return): reading the joined text gives back exactly the non-empty lines, in order and unchanged, and leaves nothing |
| LinePrinter.AllSaid | CORRELATOR/log_tailer.cpp:150-152 | Where no line is empty these are all the lines |
| LinePrinter.LogsAreReturned | CORRELATOR/log_tailer.cpp:31-170 | The first call that reads every listed log to its end returns exactly what the logs say, log by log |
| LinePrinter.OneLogIsReturned | CORRELATOR/log_tailer.cpp:31-170 | One log within the byte limit is returned by one call |
| LinePrinter.LogIsDelivered | CORRELATOR/log_tailer.cpp:31-170 | Over every schedule of calls, a log read to its end has delivered exactly what it says |
| EvidenceExact.LineageExactly | CORRELATOR/correlation_engine.cpp:184-213 | Two records of endpoints other than port match if and only if both times are non-zero and at most the window apart and they share a process id, are parent and child, or are siblings; reason, fields and confidence are those of the strongest relation in this order |
| EvidenceExact.LineageScore | CORRELATOR/correlation_engine.cpp:102-130 | The score falls linearly from 0.95, 0.85 or 0.55 at equal times to 70% of it at the window |
| EvidenceExact.BridgeExactly | CORRELATOR/correlation_engine.cpp:215-261 | A record matches a port record if and only if both times are non-zero, the port record has a mount point, and the time is inside the session widened by 5000 ms; the reason is the mount path exactly when the path begins with the mount point in any letter case, else bare proximity with a caveat |
| EvidenceExact.BridgeScore | CORRELATOR/correlation_engine.cpp:102-130 | The score of a bridge by its distance from the session |
| EvidenceExact.MatchesExactly | CORRELATOR/correlation_engine.cpp:256-261 | Any two records match exactly when one of these conditions holds |
| EvidenceFields.CommonFields | CORRELATOR/correlation_engine.cpp:144-182 | For every printed object: times, process ids (modulo 2 to the 32) and the stamp of a record are those under the named keys, first occurrence first |
| EvidenceFields.PlaceFields | CORRELATOR/correlation_engine.cpp:45-54 | Path, mount point and duration are read from the keys of the endpoint |
| EvidenceFields.KindField | CORRELATOR/correlation_engine.cpp:24-41 | The kind is read from the key of the endpoint, or else from the type |
| EvidenceFields.StatusLines | CORRELATOR/correlation_engine.cpp:132-142 | Which printed objects are status lines |
| EvidenceFields.WordsAreRead | CORRELATOR/json_fields.cpp:34-110 | Any string request on any printed object gives the first quoted value under the key |
| EvidenceFields.NumbersAreRead | CORRELATOR/json_fields.cpp:8-32 | Any number request on it gives the first value under the key, if it is a number of at most 18 digits |
| CorrelationLines.TwoLinesEndTogether | CORRELATOR/correlation_engine.cpp:263-536 | From a fresh engine: two lines of two endpoints that are related by their fields, at most thirty minutes old, end after the next cycle in one live group of exactly these two |
| CorrelationComplete.TwoEndTogether | CORRELATOR/correlation_engine.cpp:450-536 | The same for two unlinked records in any engine whose other rings are empty: one live group unless 500 groups are live |
| CorrelationComplete.RelatedEndTogether | CORRELATOR/correlation_engine.cpp:450-536 | Over every run of timed inputs in order: a cycle below its limit of 100 joins leaves no related pair that could still be joined, and unless it refused a link every two records that became partners in it sit in one live group |
| CorrelationComplete.NothingRelatedIsLeft | CORRELATOR/correlation_engine.cpp:450-536 | A cycle of an orderly engine, below 100 joins: each record with a time and less than four partners got one more, or no record of a later endpoint related to it by the fields, with less than four partners, is left |
| CorrelationComplete.NothingRelatedIsLeftInRuns | CORRELATOR/correlation_engine.cpp:450-536 | The same over every run in order |
| CorrelationComplete.NaiveSettles | CORRELATOR/correlation_engine.cpp:484-530 | The same for one pair of rings |
| CorrelationComplete.NaiveShares | CORRELATOR/correlation_engine.cpp:484-530 | Without a refused link, records that become partners share a group |
| CorrelationLines.PartnerExactly | CORRELATOR/correlation_engine.cpp:484-511 | On an ordered ring whose matching records the prefilter admits, the scan chooses the first record that is related by its fields, has less than four partners and is no partner yet, and none exactly when there is none |
| CorrelationComplete.RefusedExactly | CORRELATOR/correlation_engine.cpp:316-391 | A link is refused if and only if the records sit in different groups, in none while 500 are live, or one of them in a group of eight |
| CorrelationLines.GroupsAgeExactly | CORRELATOR/correlation_engine.cpp:297-314 | Ageing closes exactly the groups not extended for more than thirty minutes, each with one final line that shows it as it was; the others stay as they are |
| CorrelationComplete.AgedExactly | CORRELATOR/correlation_engine.cpp:284-295 | Ageing an ordered ring of timed records leaves exactly those of the last thirty minutes |
| CorrelationLines.LineIsStored | CORRELATOR/correlation_engine.cpp:263-282 | A behavioural line becomes the newest record of its ring, with its first 4096 bytes; a ring of 2000 loses its oldest record; other lines change nothing |
| DnsAddresses.EveryAddressReadsBack | NETOWRK ENDPOINT/protocol_decoder.cpp:75-96 | For every laid-out response: each address shown, taken apart by an independent reader, gives the bytes of its record in order: four decimal numbers between dots, or eight groups of four hexadecimal digits between colons |
| DnsAddresses.AnswersReadBack | NETOWRK ENDPOINT/protocol_decoder.cpp:176-214 | For every laid-out response whose alias labels hold no dot and no semicolon: the output cut at the semicolons is the addresses and names of its records in order, all of them, or 16, or up to the first text beyond 2048 characters |
| DnsAddresses.Ipv4Denotes | NETOWRK ENDPOINT/protocol_decoder.cpp:75-84 | For any four bytes the text is four decimal numbers without leading zeros, between dots, of the bytes in order |
| DnsAddresses.Ipv6Denotes | NETOWRK ENDPOINT/protocol_decoder.cpp:86-95 | For any sixteen bytes the text is eight groups of four lower-case hexadecimal digits, high byte first |
| DnsAddresses.DottedDenotes | NETOWRK ENDPOINT/protocol_decoder.cpp:37-73 | Cutting the text of a name at the dots gives its labels |
| DnsPackets.WrittenReadsBack | NETOWRK ENDPOINT/protocol_decoder.cpp:141-215 | Round trip from bytes: every response written field by field (section 4.1 of RFC 1035), alone or behind its length prefix, is decoded to the addresses and names that were written |
| DnsPackets.WrittenQueryReadsBack | NETOWRK ENDPOINT/protocol_decoder.cpp:98-136 | Every query written field by field is decoded to the labels and the type of its first question |
| DnsPackets.PointerStands | NETOWRK ENDPOINT/protocol_decoder.cpp:50-56 | Two bytes written as a pointer to an offset below 16384 stand for the name laid out there |
| TlsHello.WrittenHelloIsDecoded | NETOWRK ENDPOINT/protocol_decoder.cpp:217-279 | Round trip from bytes: for every ClientHello written field by field, whatever follows it, the result is the first host name with a text among the server names of all its extensions, and nothing exactly if there is none |
| JsonEscapes.EveryWritingIsDecoded | CORRELATOR/json_fields.cpp:34-110 | A string written with any mixture of plain characters, escaped characters and code escapes in either case is decoded to what they mean; a code means the UTF-8 bytes of its character, half a surrogate pair bytes that are no UTF-8 |
| HashDigits.HashDenotes | CORRELATOR/evidence_envelope.cpp:13-23 | The sixteen digits denote the hash value, the high ones first |
| HashDigits.KnownHashes | CORRELATOR/evidence_envelope.cpp:13-23 | The hashes of the empty text and of one letter are the given values |
| HashDigits.ReportedId | CORRELATOR/correlated_snapshot_writer.cpp:335-341 | A group is reported under the high half of the hash of its number in eight upper-case digits |
| Base64.AlphabetIs | APP/src/applog_decoder.cpp:364-372 | The alphabet is that of table 1 of RFC 4648, and no other character has a value |
| XmlText.EntitiesAre | APP/src/applog_etw_collector.cpp:126-141 | The five entities are those of section 4.6 of XML 1.0, and every other character stands for itself |
| XmlEvent.DoubleQuotedReadsBack | APP/src/applog_decoder.cpp:483-498 | In any document the first element of the name in double quotes is read |
| XmlEvent.SingleQuotedReadsBack | APP/src/applog_decoder.cpp:483-498 | Without one, the first in single quotes is read |
| XmlEvent.MissingDataIsEmpty | APP/src/applog_decoder.cpp:483-498 | Without either there is no value |
| TailerBudget.OlderFileReads | CORRELATOR/log_tailer.cpp:123-137 | Each older file reads exactly: its unread bytes up to an equal share of the rest, or up to 4096 bytes of it where the share is smaller |
| SnapshotRecords.SnapshotTellsRecords | CORRELATOR/unified_stream_engine.cpp:330-368 | The snapshot of every group of the engine tells what the accepted records behind it say: each member shows the fields of its first record, the times of its first and last, and their number; each connection the edge between two of its records |
| SnapshotRows.RowExactly | CORRELATOR/correlated_snapshot_writer.cpp:177-200 | A pair of endpoints has a row if and only if some connection joins them, and the row counts these connections, in all and by reason, and shows the last reason and the confidence of the strongest |
| SnapshotRows.LinkExactly | CORRELATOR/correlated_snapshot_writer.cpp:180-187 | A connection counts for a pair exactly when it joins one endpoint to the other, with its own reason, confidence and score |
| SnapshotTheorems.HeldInNumbers | CORRELATOR/correlated_snapshot_writer.cpp:173-173 | Held are the newest 2000 groups, or all of fewer |
| SnapshotKeys.LessExactly | CORRELATOR/correlated_snapshot_writer.cpp:186-188 | The order of names is that of the bytes at the first difference, a prefix first |
| FileBursts.BurstsAreMaximal | FILEEE/file_logger.cpp:125-174 | Over every run of calls and flushes: the next call with a key starts a record of its own if the logger was flushed or called more than 2000 ms after the last one; else it is counted into that record, unless 256 keys seen within two seconds met a call of another key in between |
| FileBursts.CallExactly | FILEEE/file_logger.cpp:125-167 | What one call changes: exactly the records older than 2000 ms are written, its own record grows or starts, and at most one record, seen longest ago, gives way when 256 are fresh |
| FileArrivals.ArrivalExactly | FILEEE/file_monitor.cpp:236-275 | The fate of an arriving event in numbers: merged if and only if it is a creation, write or deletion of a temporary file with 24576 events queued or more than 3145728 characters; dropped if larger than 4194304 characters; else queued last after the fewest oldest events have made room |
| FileArrivals.EveryOtherEventIsQueued | FILEEE/file_monitor.cpp:236-275 | Over every run, any other event of at most 4194304 characters is last in the queue when it has entered |
| Correlator.Monitor.PollCycle | CORRELATOR/main.cpp:369-411 | One turn of the main loop on the tailer and engine objects is a run of the pipeline: one read per source in order, one drain, and commits exactly when no group is pending |
| Correlator.Monitor.Shutdown | CORRELATOR/main.cpp:436-447 | Clean shutdown is a forced drain followed by a commit of every source, and leaves nothing pending |
| Correlator.Monitor.ReadSource | CORRELATOR/main.cpp:377-393 | Reading one source and feeding its lines is one read step of the pipeline and touches no other tailer |
| Correlator.Monitor.FeedLines | CORRELATOR/main.cpp:382-393 | The inner loop hands every line of a source to the engine |
| Correlator.Monitor.ReadAll | CORRELATOR/main.cpp:377-394 | The loop over sources is one read step per source, in order |
| Correlator.Monitor.DrainToLog | CORRELATOR/main.cpp:396-401 | A drain appends exactly the handed-out groups to the log |
| Correlator.Monitor.CommitAll | CORRELATOR/main.cpp:407-410 | The commit loop is one commit step per source, taken with nothing pending |
| Correlator.Monitor.CommitOne | CORRELATOR/main.cpp:408-409 | A commit is a pipeline step, whether or not the checkpoint could be written |
| Correlator.Monitor.constructor | CORRELATOR/main.cpp:369-376 | The loop starts in the first-start state of the pipeline |
| UnifiedEngine.UnifiedStreamEngine.Ingest | CORRELATOR/unified_stream_engine.cpp:139-287 | The class keeps its invariant and does what the specification of one line says (which lines are accepted: `UnifiedIdentity.LineIsAcceptedExactly`; where they go: `UnifiedMatches.LineIsPlaced`) |
| UnifiedEngine.UnifiedStreamEngine.Place | CORRELATOR/unified_stream_engine.cpp:167-287 | The placement branches on the object fields equal the specification |
| UnifiedEngine.UnifiedStreamEngine.SearchRepeat | CORRELATOR/unified_stream_engine.cpp:169-187 | The repeat search finds the first repeated member in id order |
| UnifiedEngine.UnifiedStreamEngine.CollectCandidates | CORRELATOR/unified_stream_engine.cpp:189-203 | The candidate loop collects the best candidate of each group |
| UnifiedEngine.UnifiedStreamEngine.ScanGroup | CORRELATOR/unified_stream_engine.cpp:193-201 | The inner candidate loop |
| UnifiedEngine.UnifiedStreamEngine.JoinCandidates | CORRELATOR/unified_stream_engine.cpp:220-287 | Sorting, merging, full-group flush and extension equal the specification |
| UnifiedEngine.UnifiedStreamEngine.MergeStories | CORRELATOR/unified_stream_engine.cpp:227-254 | The merge loop over the remaining candidates |
| UnifiedEngine.UnifiedStreamEngine.MergeCandidate | CORRELATOR/unified_stream_engine.cpp:234-253 | One candidate: skipped, counted over the limit, or merged |
| UnifiedEngine.UnifiedStreamEngine.FlushOldest | CORRELATOR/unified_stream_engine.cpp:289-301 | The least recently active group is forced out |
| UnifiedEngine.UnifiedStreamEngine.RememberIdentity | CORRELATOR/unified_stream_engine.cpp:129-137 | The bounded identity window |
| UnifiedEngine.UnifiedStreamEngine.DrainReady | CORRELATOR/unified_stream_engine.cpp:303-328 | A drain hands out the forced-out groups and exactly the pending ones that were quiet for 3000 ms or created 30000 ms ago, or all when forced, which leaves nothing; the state equals its specification |
| UnifiedEngine.UnifiedStreamEngine.DrainPending | CORRELATOR/unified_stream_engine.cpp:316-326 | The loop over pending groups hands out the due ones in id order |
| UnifiedEngine.UnifiedStreamEngine.constructor | CORRELATOR/unified_stream_engine.h:70-80 | The empty engine satisfies the invariant |
| LogTailing.LogTailer.ReadNewLines | CORRELATOR/log_tailer.cpp:31-170 | The class does what the specification of one call says (what the lines are: `LinePrinter.LogsAreReturned`) |
| LogTailing.LogTailer.ReadListed | CORRELATOR/log_tailer.cpp:81-158 | One listed file: bootstrap, truncation, nothing new, or a budgeted read |
| LogTailing.LogTailer.ReadStream | CORRELATOR/log_tailer.cpp:101-158 | Reading a chunk and updating offsets and the carried line |
| LogTailing.LogTailer.SplitBuffer | CORRELATOR/log_tailer.cpp:143-155 | The newline loop computes the lines and the rest (what they are: `LinePrinter.DocumentReadsBack`) |
| LogTailing.LogTailer.Commit | CORRELATOR/log_tailer.cpp:184-210 | A successful commit records exactly the safe offsets |
| CorrelationEngines.CorrelationEngine.Ingest | CORRELATOR/correlation_engine.cpp:263-282 | The class method equals its specification |
| CorrelationEngines.CorrelationEngine.PruneStale | CORRELATOR/correlation_engine.cpp:284-295 | The class method equals its specification |
| CorrelationEngines.CorrelationEngine.PruneStaleGroups | CORRELATOR/correlation_engine.cpp:297-314 | The class method equals its specification, over the three group maps |
| CorrelationEngines.CorrelationEngine.AssignOrExtendGroup | CORRELATOR/correlation_engine.cpp:316-391 | All six branches equal the specification, over the three group maps |
| CorrelationEngines.CorrelationEngine.ScanRings | CORRELATOR/correlation_engine.cpp:484-530 | The two-pointer loop equals its specification |
| CorrelationEngines.CorrelationEngine.FindPartner | CORRELATOR/correlation_engine.cpp:492-512 | Sliding and window loops find the specified partner |
| CorrelationEngines.CorrelationEngine.JoinPair | CORRELATOR/correlation_engine.cpp:513-524 | Recording the pair and linking it |
| CorrelationEngines.CorrelationEngine.TryCorrelate | CORRELATOR/correlation_engine.cpp:450-533 | A whole cycle equals its specification (what it joins: `CorrelationComplete.RelatedEndTogether`) |
| JsonPrinter.EscapeJson | CORRELATOR/unified_stream_engine.cpp:14-36 | The output loop equals the escape of the whole text |
| JsonFields.ExtractJsonString | CORRELATOR/json_fields.cpp:34-110 | The cursor loop equals the decoding specification |
| JsonFields.ExtractJsonNumber | CORRELATOR/json_fields.cpp:8-32 | The digit loop equals the number specification |
| JsonFields.ReadDigits | CORRELATOR/json_fields.cpp:20-29 | The bounded digit loop |
| Hashing.Fnv1a64Hex | CORRELATOR/evidence_envelope.cpp:13-23 | The loop computes the 64-bit hash as 16 hexadecimal digits |
| XmlText.XmlEscape | APP/src/applog_etw_collector.cpp:126-141 | The escape loop |
| XmlText.XmlUnescape | APP/src/applog_decoder.cpp:540-557 | The five find-and-replace loops |
| XmlText.ReplaceAll | APP/src/applog_decoder.cpp:547-554 | One in-place find-and-replace loop replaces every occurrence once, left to right |
| XmlEvent.ExtractData | APP/src/applog_decoder.cpp:483-498 | The extraction with its single-quote fallback |
| Utf16Text.EscapeJsonString | FILEEE/file_processor.cpp:776-838 | The unit loop equals the specification |
| Base64.DecodeLoop | APP/src/applog_decoder.cpp:361-380 | The streaming loop with a wrapping 32-bit accumulator is block decoding without zero bytes, for inputs of any length; an empty result gives the input |
| DnsNames.ReadDnsName | NETOWRK ENDPOINT/protocol_decoder.cpp:37-73 | The loop reads in bounds, ends, and equals the specification |
| DnsNames.AppendLabel | NETOWRK ENDPOINT/protocol_decoder.cpp:64-70 | The inner character loop |
| DnsMessages.DecodeDnsResponse | NETOWRK ENDPOINT/protocol_decoder.cpp:141-215 | The method equals its specification and succeeds exactly when there is an answer text (what the text denotes: `DnsAddresses.AnswersReadBack`) |
| DnsMessages.CollectAnswers | NETOWRK ENDPOINT/protocol_decoder.cpp:176-212 | The answer loop is the cut join of the renderings |
| DnsMessages.SkipQuestions | NETOWRK ENDPOINT/protocol_decoder.cpp:163-174 | The question loop |
| DnsQueries.DecodeDnsQuery | NETOWRK ENDPOINT/protocol_decoder.cpp:98-136 | The loop equals its specification |
| TlsSni.DecodeTlsSni | NETOWRK ENDPOINT/protocol_decoder.cpp:217-279 | The method reads in bounds and equals its specification |
| TlsSni.SearchExtensions | NETOWRK ENDPOINT/protocol_decoder.cpp:244-276 | The extension loop |
| TlsSni.FindHostName | NETOWRK ENDPOINT/protocol_decoder.cpp:259-273 | The server name loop |
| SnapshotWriting.CorrelatedSnapshotWriter.AddGroups | CORRELATOR/correlated_snapshot_writer.cpp:150-175 | The class keeps its aggregates equal to the recomputation |
| SnapshotWriting.CorrelatedSnapshotWriter.AddGroup | CORRELATOR/correlated_snapshot_writer.cpp:154-172 | The body of the loop over groups |
| SnapshotWriting.CorrelatedSnapshotWriter.UpdateEndpointGraph | CORRELATOR/correlated_snapshot_writer.cpp:177-200 | The connection loop |
| SnapshotWriting.CorrelatedSnapshotWriter.CountLink | CORRELATOR/correlated_snapshot_writer.cpp:189-199 | One link into its aggregate |
| SnapshotWriting.CorrelatedSnapshotWriter.UpdateEndpointCombinations | CORRELATOR/correlated_snapshot_writer.cpp:202-222 | The combination of one group |
| FileQueue.EventQueue.EnterQueue | FILEEE/file_monitor.cpp:236-275 | The class equals the locked section and keeps its invariant |
| FileQueue.EventQueue.DropOldest | FILEEE/file_monitor.cpp:254-267 | The discarding loop |
| FileQueue.EventQueue.TakeAll | FILEEE/file_monitor.cpp:418-430 | The drain loop returns the queue |
| FileLog.FileLogger.LogAggregated | FILEEE/file_logger.cpp:125-167 | The class equals its specification and keeps every account |
| FileLog.FileLogger.Flush | FILEEE/file_logger.cpp:169-174 | The class leaves nothing pending |
| FileLog.FileLogger.FlushExpired | FILEEE/file_logger.cpp:269-283 | The flush loop |

## Left out

- Rendered JSON of groups (`Render`, `RenderGroupJson`, `RenderDocument`): the model hands out the group or the revision itself.
- `FixedOrigin.NothingIsLost`: covers append-only files; replacement and removal are events of the reader's own runs (`TailerTheorems.EveryTailRunIsExact`) but no steps of the crash model. Writing a checkpoint is atomic or fails; a crash between removing the old checkpoint and renaming the new one is not modelled. Identity stands for the line as in the engine: records with equal identities (equal hash of the first 4096 bytes when no native id is stamped) count as one. A line that was incomplete at the first bootstrap is not promised.
- `AtLeastOnce.EveryRunIsSound`: a group counts as delivered when it is handed to the logger; a failing log write is not modelled.
- `TailerTheorems.EveryTailRunIsExact`: says nothing of a file between its replacement and its next read, and a listed replacement is shorter than what was read of the file (`TailerTheorems.ReplacementIsNoticedExactly` says what happens otherwise). The listing is given newest first; a failing stat is an entry without a size, a failing open an entry that serves no bytes, a missing directory a call with limit zero.
- `UnifiedDrain.NothingPendsForLong`: bounds the age of a group, not of each record: the age counts from the opening of the story that took the others in, so the records of a story absorbed by a younger one wait on with it.
- `UnifiedIdentity.LineIsAcceptedExactly`: endpoint names hold no bar, as the five configured ones do; identities of records with neither stamp nor content hash are told apart up to the hash.
- `UnifiedActivity.SameActivityIsCounted`: the other direction holds up to the hash of the fingerprint, and for texts without bars (`UnifiedActivity.SemanticKeyExactly`).
- `CorrelationComplete.RelatedEndTogether`: partners of a cycle that refused a link may sit in different groups (`CorrelationComplete.RefusedExactly` says when a link is refused); which of several related records becomes the partner is given by the naive scan.
- `DnsAddresses.AnswersReadBack`: aliases whose labels hold a dot or a semicolon cannot be told apart in the output; addresses beside them can (`DnsAddresses.EveryAddressReadsBack`).
- `Hashing.Fnv1a64Hex`: nothing is assumed of the hash; collisions may merge identities or fingerprints as in the source.
- Integer widths: counters, ids and times are unbounded; 64-bit overflow of `duration_seconds * 1000` and 32-bit wrap of group ids are not modelled. Process ids do wrap at 32 bits. Buffer lengths stay below the 32-bit limit at which the decoders' offset sums would wrap.
- `Evidence.ScoreBounds`: scores are reals; floating-point rounding is not modelled.
- `CorrelationOrder.FinalIsFinalOnTimedInput`: the input condition is sufficient; the exact condition is stated for one ageing step (`CorrelationRuns.AgeingIsSafeExactly`).
- `CorrelationScan.TwoPointerIsNaive`: time order of the rings is assumed, not characterised.
- `UnifiedEngine.UnifiedStreamEngine.DrainReady`: the overload without a snapshot list differs only in not exporting snapshots and is not modelled.
- `Base64.DecodeLoop`: the regular expression that finds the encoded text in a script is not part of this model.
- `DnsMessages.ResponseReadsBack`: a layout is a layout of the buffer; for TCP whole responses are related to the unframed message only when no name has a pointer; single names with a pointer are related by `DnsFraming.CompressedIsReadEarly`.
- `FileQueue.NothingVanishes`: path classification (known temporary path, executable extension) is an input of each event.
- `FileLog.EveryCallIsCounted`: a line counts as written when it is handed to the writer, whose failures the source ignores at this point.
- `ExtractJsonBool`, health records, IPC control, resource pressure, rotation and pruning of log files, registry discovery: their properties are easy next to the above.
- Foreign interfaces (ETW, Npcap, named pipes, BCrypt), the GUI and the Python receiver: events, bytes and clock readings are inputs.
- Threads and locks: each locked section is one atomic step.
