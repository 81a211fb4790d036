# ContextBridge: a Dafny model

ContextBridge relays work between clients, workers and adapters. This project models seven of its pieces and proves what
they promise. `dafny verify dfyconfig.toml` checks everything; nothing here executes the program.

| part | files | main results |
|---|---|---|
| Ogg/Opus inspector | `Bits`, `OggCrc`, `OggLacing`, `OggPage`, `OpusStream`, `OpusInspect`, `OggEncode`, `OpusSample` | the one-pass inspector accepts exactly the byte strings of a page-and-packet grammar and returns the duration the grammar gives; the table-driven checksum is division over GF(2) and finds every burst of 32 bits; every stream of the grammar can be written and is accepted, and every admitted duration occurs |
| adapter conformance core | `AdapterProtocol`, `AdapterCore`, `AdapterTrace`, `AdapterVerdicts`, `AdapterEvidence`, `AdapterReplies`, `AdapterWitness` | over every run, each counter, flag and verdict of the stateful core is equivalent to a property of the event history; leases are fenced; rotation is once and exact; a well-behaved adapter passes every check under every configuration |
| embedding response decoder | `JsonTokens`, `JsonLoops`, `EmbeddingDecode`, `EmbeddingReply`, `EmbeddingDecoder` | the streaming decoder returns a result exactly when the tokens are one complete document that says it, told without an order of reading; vectors are placed by a bijection of indexes, in any order of arrival |
| interspersed flags | `InterspersedFlags` | moving options to the front keeps the meaning of a command line except in one exact family, shown by example |
| sample dispatcher | `SampleDispatch` | under every interleaving each index runs at most once, no error means all ran and succeeded, the first error wins and is genuine, and every schedule ends |
| agent runs | `AgentBudget`, `AgentAllowlist`, `AgentHandoff`, `AgentRun`, `TextOrder` | a run is determined job by job with its reason to stop; each ceiling is exactly the authority unspent; the total is bounded if and only if the last job kept its ceiling; allowlists round-trip; one step's result reaches the next as an exact request |
| self-test planner | `SelftestPlan`, `StableSort` | the plan is the unique answer to a description of the pool without scan or sort, whatever the order of nodes |

Objects with fields become classes (the conformance core, the JSON reader, the run budget), loops become methods with
invariants, and each is proved against functions on values; the main theorems are about those functions. The dispatcher
is a transition system over its goroutines' steps.

Three places where the code departs from what one would expect of it:

- Interspersed flags: with a trailing option that lacks its value and at least one positional, the inserted `--` becomes
  that value (`InterspersedFlags.SwallowExample`). `InterspersedFlags.RewriteKeepsMeaning` gives the exact condition.
- Agent budgets: a job is submitted before its reservation is known, so the last job of a run can exceed the authority
  (`AgentRun.OverdraftExample`). `AgentRun.TotalIsBounded` gives the exact condition.
- The duration limit applied after inspection can never be reached, because the inspector already bounds every granule
  (`OpusInspect.InspectAudioBytes`).

The page format follows section 6 of RFC 3533, the packets follow sections 3 to 5 of RFC 7845, and documents follow
RFC 8259, each as far as the code enforces them.

## Model

| member | source | states |
|---|---|---|
| `OggCrc.ShiftWord` | internal/bridge/audio.go:195-199 | one shift-and-xor of the register gives the remainder of the register with a zero bit appended |
| `OggCrc.BuildCrcTable` | internal/bridge/audio.go:190-204 | all 256 table entries are the remainders of their index byte shifted by 32 bits |
| `OggCrc.TableEntryIsEightSteps` | internal/bridge/audio.go:193-201 | eight shift steps on an index byte compute the remainder of that byte times x^32 |
| `OggCrc.CrcAppendByte` | internal/bridge/audio.go:183-186 | one table step moves the register from the checksum of a message to the checksum of the message with one more byte |
| `OggCrc.OggCrc` | internal/bridge/audio.go:179-188 | the table-driven loop computes the polynomial remainder of the page with its checksum field read as zero, for every page |
| `OggCrc.CrcIsPolynomialRemainder` | internal/bridge/audio.go:179-188 | the checksum is the only word that is a remainder of message times x^32 under some quotient, so the loop, the bitwise form and division over GF(2) agree |
| `OggCrc.RemIsRemainder` | internal/bridge/audio.go:190-204 | long division leaves dividend = quotient times generator plus remainder |
| `OggCrc.DivisionUnique` | internal/bridge/audio.go:190-204 | quotient and remainder are determined by the dividend |
| `OggCrc.CrcLinear` | internal/bridge/audio.go:179-188 | the checksum of the difference of two messages is the difference of their checksums |
| `OggCrc.BurstDetected` | internal/bridge/audio.go:179-188 | two messages that differ only inside one window of 32 bits never share a checksum |
| `OggCrc.PageBurstDetected` | internal/bridge/audio.go:108-110 | two pages that differ only inside four consecutive bytes, and somewhere outside the checksum field, never share a checksum |
| `OggLacing.CutAppend` | internal/bridge/audio.go:121-125 | segments of bodies laid end to end are the segments of each body in turn |
| `OggLacing.SplitAppend` | internal/bridge/audio.go:121-145 | taking segments one at a time, closing a packet at each segment shorter than 255, gives the packets of the whole segment list |
| `OggLacing.SplitPrefix` | internal/bridge/audio.go:121-145 | a longer stream finishes the packets of its prefix, in order, before any others |
| `OggLacing.SplitKeepsBytes` | internal/bridge/audio.go:121-145 | finished packets and the open one hold every laced byte once and in order |
| `OggLacing.PendingIsWholeSegments` | internal/bridge/audio.go:117-145 | between segments the open packet holds whole 255-byte segments, and bytes exactly when it is open |
| `OggPage.SumLacing` | internal/bridge/audio.go:98-101 | the body length is the sum of the segment table |
| `OggPage.ReadPage` | internal/bridge/audio.go:84-110 | a page is read exactly when the bytes at the offset start with a well-formed page, and then it is that page |
| `OggPage.FirstPage` | internal/bridge/audio.go:83-110 | the page read at the front is the only well-formed page that the bytes start with |
| `OggPage.PagesUnique` | internal/bridge/audio.go:83-158 | pages read from the front of a byte string begin every way of cutting it into well-formed pages |
| `OpusStream.StreamPageByPage` | internal/bridge/audio.go:111-166 | the stream grammar, stated over all pages at once, holds exactly when every page may follow its predecessors and the end is complete |
| `OpusStream.PacketsIgnorePages` | internal/bridge/audio.go:111-145 | packets rebuilt page by page are the packets of all bodies laid end to end under all segment tables, wherever the page boundaries fall |
| `OpusStream.DurationInRange` | internal/bridge/audio.go:146-176 | every stream of the grammar lasts between one millisecond and the five-minute limit, and the granule sum never leaves 64 bits |
| `OpusInspect.FinishPacket` | internal/bridge/audio.go:126-144 | the first packet must be a valid head, the second a tag packet, later ones non-empty; the pre-skip comes from the head |
| `OpusInspect.AddOne` | internal/bridge/audio.go:122-145 | one segment keeps the loop variables equal to the packets of the segments so far, and is refused exactly when a packet it closes is wrong |
| `OpusInspect.ReadPackets` | internal/bridge/audio.go:121-145 | one page body is admitted exactly when every packet finished so far is right, whichever page it started on |
| `OpusInspect.CheckOrder` | internal/bridge/audio.go:88-119 | serial, sequence, begin, end and continuation flags judged from the loop variables are the order rules over all earlier pages |
| `OpusInspect.OpenIffPending` | internal/bridge/audio.go:117-119 | a non-empty packet buffer is an exact test for an unfinished packet |
| `OpusInspect.LastGranuleIsGreatest` | internal/bridge/audio.go:146-156 | the last granule that was set is the largest of all earlier ones |
| `OpusInspect.CheckGranule` | internal/bridge/audio.go:146-156 | granule order and limit, with the sum taken in 64 bits, are the rules over all earlier pages |
| `OpusInspect.AdmitPage` | internal/bridge/audio.go:111-158 | the loop body admits a page exactly when it may follow the pages so far, and keeps the loop variables describing them |
| `OpusInspect.NextPageForced` | internal/bridge/audio.go:83-110 | whatever was read so far begins every chain of pages of the whole input, and the next page is forced |
| `OpusInspect.ChainUnique` | internal/bridge/audio.go:83-158 | a byte string is a chain of well-formed pages in at most one way |
| `OpusInspect.Conclude` | internal/bridge/audio.go:160-176 | the checks after the last page accept exactly the finished streams and return their duration |
| `OpusInspect.InspectOggOpus` | internal/bridge/audio.go:71-177 | accepted if and only if the bytes are some chain of well-formed pages that forms a stream of the grammar, and the duration is the one of that stream |
| `OpusInspect.InspectAudioBytes` | internal/bridge/audio.go:51-61 | the size limits around the inspector; an accepted recording lasts 1 ms to 300000 ms, so the duration check after inspection never fires |
| `OpusInspect.DamagedPage` | internal/bridge/audio.go:108-110 | a page changed inside four consecutive bytes, its checksum field kept or hit alone, is not well-formed |
| `OpusInspect.DamagedRecordingRejected` | internal/bridge/audio.go:71-177 | a recording damaged inside four consecutive bytes of one page, outside its segment table, is no recording under any reading, whether header, flags, numbers, body or checksum are hit |
| `OggEncode.SealMakesWellFormed` | internal/bridge/audio_test.go:125-139 | writing the checksum into a framed page makes it well-formed and leaves its content alone |
| `OggEncode.DecodeEncodePage` | internal/bridge/audio_test.go:125-139 | reading back a page that was written gives the page: flags, granule, serial, sequence and segments |
| `OggEncode.CutRoundTrip` | internal/bridge/audio_test.go:125-139 | segments survive being joined into a body and cut again by their sizes |
| `OggEncode.LittleRoundTrip` | internal/bridge/audio_test.go:125-139 | little-endian fields of any width survive writing and reading |
| `OggEncode.EncodedStreamIsRecording` | internal/bridge/audio_test.go:105-139 | every stream of the grammar whose fields fit a page is the content of a byte string that the inspector accepts |
| `OpusSample.SampleIsValid` | internal/bridge/audio_test.go:79-123 | a head, a comment and one audio packet form a stream of the grammar exactly when they hold between one sample and the limit, with or without a closing flag, and the duration is the sample count rounded up to milliseconds |
| `OpusSample.EveryDurationOccurs` | internal/bridge/audio_test.go:87-123 | for every duration from 1 ms to the limit some bytes are a recording of that duration, so the accepting condition of the inspector is met |
| `AdapterProtocol.ParseDecimal` | cmd/contextbridge/adapter_conformance.go:591 | a generation written in decimal reads back as the same number |
| `AdapterProtocol.DecimalInjective` | cmd/contextbridge/adapter_conformance.go:591-597 | two generations with the same header text are the same generation |
| `AdapterCore.AdapterConformanceCore.constructor` | cmd/contextbridge/adapter_conformance.go:378-430 | a new core has no counts, no flags, no violation and the first lease |
| `AdapterCore.AdapterConformanceCore.ServeHTTP` | cmd/contextbridge/adapter_conformance.go:473-535 | new state and reply of one request, over every route, scenario and credential |
| `AdapterCore.AdapterConformanceCore.HandleLeaseAction` | cmd/contextbridge/adapter_conformance.go:589-699 | the fence comes first; then the action named by the path, an unknown one being a violation |
| `AdapterCore.AdapterConformanceCore.HandleComplete` | cmd/contextbridge/adapter_conformance.go:701-759 | new state and reply of a completion, with the first applicable violation recorded |
| `AdapterCore.Drive` | cmd/contextbridge/adapter_conformance.go:784-841 | a core driven through any sequence of requests, rotations and process failures holds the state the run determines |
| `AdapterTrace.RunLease` | cmd/contextbridge/adapter_conformance.go:589-629 | in every run the lease in force is the first one or that of the latest rotation; it rotates at most once, only after a refused claim, and the generation then rises by one without wrapping |
| `AdapterTrace.NoClaimBeforeRotation` | cmd/contextbridge/adapter_conformance.go:616-622 | where rotation is tested, no claim is accepted before the lease has rotated |
| `AdapterTrace.DispatchMoves` | cmd/contextbridge/adapter_conformance.go:490-759 | each handler changes exactly the fields its effect names, and records a violation, if none is recorded, exactly when the request is not acceptable in the present state |
| `AdapterTrace.StepServe` | cmd/contextbridge/adapter_conformance.go:473-535 | a served request is numbered, changes only the fields its effect under the lease in force names, and never the lease |
| `AdapterTrace.StepViolation` | cmd/contextbridge/adapter_conformance.go:467-759 | a recorded violation is kept; otherwise one is recorded exactly by an unacceptable request or a failed process |
| `AdapterTrace.StepLease` | cmd/contextbridge/adapter_conformance.go:843-861 | only a rotation after a refused claim, once, replaces the lease; only a refused claim marks the refusal |
| `AdapterTrace.RunClaims` | cmd/contextbridge/adapter_conformance.go:604-629 | the claimed and completed flags hold exactly when the run contains an accepted claim, or a completion that ends the job |
| `AdapterTrace.RunCounts` | cmd/contextbridge/adapter_conformance.go:604-727 | claims, progress reports, lease checks and completions that quote the lease in force and are well-formed are counted exactly |
| `AdapterTrace.RunLatePolls` | cmd/contextbridge/adapter_conformance.go:479-487 | polls after the finish, and after a refused claim before rotation, are counted exactly |
| `AdapterTrace.RunGrants` | cmd/contextbridge/adapter_conformance.go:570-581 | the job is granted at the first accepted poll of each lease, hence at most once plus the number of rotations |
| `AdapterVerdicts.RunProgress` | cmd/contextbridge/adapter_conformance.go:644-650 | in an obedient run the stored progress number is the largest one reported under the lease in force |
| `AdapterVerdicts.ProgressRises` | cmd/contextbridge/adapter_conformance.go:644-650 | in a run without violations progress numbers rise strictly between rotations |
| `AdapterVerdicts.ViolationDecides` | cmd/contextbridge/adapter_conformance.go:467-759 | the violation field is empty if and only if every event of the run obeyed the protocol, obedience being defined from the history alone |
| `AdapterVerdicts.ViolationIsFinal` | cmd/contextbridge/adapter_conformance.go:467-471 | no later event clears or replaces a recorded violation |
| `AdapterVerdicts.RotationVerdictDecides` | cmd/contextbridge/adapter_conformance.go:261-264 | the rotation check passes if and only if the run has one rotation, two grants, two claims, a finish, no poll after the refusal and no disobedience |
| `AdapterVerdicts.RotationVerdictMeans` | cmd/contextbridge/adapter_conformance.go:261-264 | a passing rotation check means exactly one claim refused under the first generation, exactly one accepted under the next, and every completion quotes the next generation after that accepted claim |
| `AdapterVerdicts.AmbiguousVerdictDecides` | cmd/contextbridge/adapter_conformance.go:270-272 | the ambiguous-completion check passes if and only if there is exactly one completion, no poll after it and no disobedience |
| `AdapterEvidence.RunArrivals` | cmd/contextbridge/adapter_conformance.go:474-510 | requests, status probes with or without credential, and well-formed heartbeats are counted exactly |
| `AdapterEvidence.RunRenewal` | cmd/contextbridge/adapter_conformance.go:537-559 | the capability counts as renewed if and only if a heartbeat after the first well-formed one carried it |
| `AdapterEvidence.RunCancelled` | cmd/contextbridge/adapter_conformance.go:654-713 | the job counts as cancelled if and only if the run has two lease checks or a completion in the cancellation scenario, and polls after that are counted exactly |
| `AdapterEvidence.RunMarks` | cmd/contextbridge/adapter_conformance.go:476-727 | the claim and completion marks are the request numbers of the last accepted claim and the last completion |
| `AdapterEvidence.LastNumbersOrder` | cmd/contextbridge/adapter_conformance.go:243-244 | comparing the numbers of the last occurrences decides whether some completion follows the last accepted claim |
| `AdapterEvidence.OneProbeVerdictDecides` | cmd/contextbridge/adapter_conformance.go:215-223 | the two no-retry checks pass if and only if the whole run is a single request and it is the status probe |
| `AdapterEvidence.ExpiredLeaseVerdictDecides` | cmd/contextbridge/adapter_conformance.go:229-232 | the expired-lease check passes if and only if there is one claim, no progress, no completion, no poll after the refusal and no disobedience |
| `AdapterEvidence.LifecycleVerdictDecides` | cmd/contextbridge/adapter_conformance.go:238-245 | the three lifecycle checks together pass if and only if the job was finished obediently, the capability renewed, and a completion follows the last accepted claim |
| `AdapterEvidence.LifecycleVerdictMeans` | cmd/contextbridge/adapter_conformance.go:238-245 | a passing lifecycle means every completion that ends the job, not only the last, comes after an accepted claim |
| `AdapterEvidence.CancellationVerdictDecides` | cmd/contextbridge/adapter_conformance.go:251-255 | the cancellation check passes if and only if there is one claim, accepted, at least two lease checks, no completion, no poll after cancellation and no disobedience |
| `AdapterReplies.GrantReply` | cmd/contextbridge/adapter_conformance.go:570-586 | a reply carries a lease if and only if it grants the job, and then it is the lease in force |
| `AdapterReplies.ClaimReply` | cmd/contextbridge/adapter_conformance.go:615-629 | a well-formed claim is answered 409 when it is one of the refused claims of the run and 200 otherwise |
| `AdapterReplies.LeaseReplies` | cmd/contextbridge/adapter_conformance.go:662-674 | a lease check is answered 409 exactly from the second one on in the cancellation scenario |
| `AdapterReplies.ReleaseReply` | cmd/contextbridge/adapter_conformance.go:683-690 | a well-formed release is answered 409 if and only if the run already has an accepted claim |
| `AdapterReplies.GrantedLeaseFences` | cmd/contextbridge/adapter_conformance.go:589-602 | a lease handed out passes the fence exactly until the next rotation; afterwards its generation is turned away whatever capability comes with it |
| `AdapterWitness.WorkPasses` | cmd/contextbridge/adapter_conformance.go:238-272 | for every configuration, heartbeat, poll, claim, heartbeat and completion pass the lifecycle and the ambiguous-completion checks |
| `AdapterWitness.RefusedPasses` | cmd/contextbridge/adapter_conformance.go:229-232 | for every configuration, stopping at the refused claim passes the expired-lease check |
| `AdapterWitness.CancelledPasses` | cmd/contextbridge/adapter_conformance.go:251-255 | for every configuration, two lease checks and then silence pass the cancellation check |
| `AdapterWitness.RotatedPasses` | cmd/contextbridge/adapter_conformance.go:261-264 | for every configuration and new capability, polling, claiming and completing under the rotated lease pass the rotation check |
| `AdapterWitness.ProbePasses` | cmd/contextbridge/adapter_conformance.go:215-223 | for every configuration and credential, a single status probe passes both no-retry checks |
| `JsonTokens.SkipExact` | internal/bridge/embedding_decode.go:280-313 | a value is skipped, and nothing after it touched, exactly when its nesting still fits the depth limit |
| `JsonTokens.SkipSound` | internal/bridge/embedding_decode.go:280-313 | whatever token prefix is skipped was the tokens of some value that is shallow enough |
| `JsonLoops.ArrayAgrees` | internal/bridge/embedding_decode.go:123-142 | the streaming array loop with its limit gives what mapping over the array of the document gives |
| `JsonLoops.ObjectAgrees` | internal/bridge/embedding_decode.go:144-185 | the streaming object loop gives what folding over the fields of the document gives |
| `JsonLoops.ArraySound` | internal/bridge/embedding_decode.go:123-142 | tokens that the array loop accepts are the tokens of some array with that content |
| `JsonLoops.ObjectSound` | internal/bridge/embedding_decode.go:144-185 | tokens that the object loop accepts are the tokens of some object with that content |
| `EmbeddingDecode.VectorAgrees` | internal/bridge/embedding_decode.go:208-227 | streaming a vector agrees with reading it from the document, the dimension limit included |
| `EmbeddingDecode.ItemAgrees` | internal/bridge/embedding_decode.go:144-185 | streaming an item agrees with reading it from the document |
| `EmbeddingDecode.ItemsAgrees` | internal/bridge/embedding_decode.go:123-142 | streaming the data array agrees with reading it from the document |
| `EmbeddingDecode.UsageAgrees` | internal/bridge/embedding_decode.go:229-254 | streaming the usage object agrees with reading it from the document |
| `EmbeddingDecode.ReplyAgrees` | internal/bridge/embedding_decode.go:38-68 | on the tokens of any document, followed by anything, streaming decode equals the reading of the document and refuses a tail or a cut-off body |
| `EmbeddingDecode.ReplySound` | internal/bridge/embedding_decode.go:38-68 | a token stream is accepted only if it is exactly one document, with that document's content |
| `EmbeddingDecode.ItemIsDeclarative` | internal/bridge/embedding_decode.go:144-185 | an item is read if and only if the object supplies one vector and one index exactly once each, in any field order, and other fields are shallow enough |
| `EmbeddingReply.UsageIsDeclarative` | internal/bridge/embedding_decode.go:229-254 | a usage object is read if and only if every count given is a number or null and other fields are shallow enough; each count is the last number given for it |
| `EmbeddingReply.ReplyIsDeclarative` | internal/bridge/embedding_decode.go:38-68 | a document is read if and only if every data array and every usage object in it is readable and other fields are shallow enough; the last data array and the last usage object count |
| `EmbeddingReply.GivenRearranged` | internal/bridge/embedding_decode.go:38-68 | documents that differ only in the order of entries within data arrays give the same usage objects and rearranged data arrays |
| `EmbeddingDecoder.Decoder.constructor` | internal/bridge/embedding_decode.go:315-320 | a decoder starts with all tokens unread |
| `EmbeddingDecoder.Decoder.NextToken` | internal/bridge/embedding_decode.go:256-266 | a token is consumed, or reading fails at the end and at a malformed token |
| `EmbeddingDecoder.Decoder.ExpectDelimiter` | internal/bridge/embedding_decode.go:268-278 | succeeds exactly on the wanted delimiter and consumes it |
| `EmbeddingDecoder.Decoder.DecodeKey` | internal/bridge/embedding_decode.go:256-266 | succeeds exactly on a string and consumes it |
| `EmbeddingDecoder.Decoder.Skip` | internal/bridge/embedding_decode.go:280-313 | the recursive skip on the reader consumes exactly what the skip function says |
| `EmbeddingDecoder.Decoder.DecodeVector` | internal/bridge/embedding_decode.go:208-227 | the loop on the reader consumes and returns exactly what the vector function says |
| `EmbeddingDecoder.Decoder.DecodeItem` | internal/bridge/embedding_decode.go:144-185 | the loop on the reader consumes and returns exactly what the item function says |
| `EmbeddingDecoder.Decoder.DecodeItems` | internal/bridge/embedding_decode.go:123-142 | the loop on the reader consumes and returns exactly what the data-array function says |
| `EmbeddingDecoder.Decoder.DecodeUsage` | internal/bridge/embedding_decode.go:229-254 | the loop on the reader consumes and returns exactly what the usage function says |
| `EmbeddingDecoder.Decoder.DecodeReply` | internal/bridge/embedding_decode.go:38-68 | the loop on the reader returns exactly what the reply function says, end of input included |
| `EmbeddingDecoder.PlaceVectors` | internal/bridge/embedding_decode.go:69-84 | vectors are placed if and only if there are some and their indexes are distinct and below their number; every slot then holds the vector of its index |
| `EmbeddingDecoder.EverySlotFilled` | internal/bridge/embedding_decode.go:69-84 | n distinct indexes below n leave no slot empty |
| `EmbeddingDecoder.PlacedOnce` | internal/bridge/embedding_decode.go:69-84 | the placed result is determined by the items |
| `EmbeddingDecoder.ResponseOrderIrrelevant` | internal/bridge/embedding_decode.go:38-85 | whole documents that differ only in the order of entries within data arrays decode to the same vectors and usage |
| `EmbeddingDecoder.WithinLimits` | internal/bridge/embedding_decode.go:123-227 | an accepted data array has at most 256 vectors, each within the dimension limit |
| `EmbeddingDecoder.DecodeOpenAIResponse` | internal/bridge/embedding_decode.go:38-85 | a result is returned if and only if the tokens are exactly one complete document that says it: readable fields, a last data array whose indexes are a bijection, its vectors by index, and the last usage; it is within the limits |
| `InterspersedFlags.ParseInterspersed` | cmd/contextbridge/interspersed_flags.go:14-50 | the loop hands the standard parser all options in order, then a marker and all positionals in order |
| `InterspersedFlags.TakeOption` | cmd/contextbridge/interspersed_flags.go:28-45 | an option moves with exactly the arguments it takes |
| `InterspersedFlags.OptionIgnoresRest` | cmd/contextbridge/interspersed_flags.go:28-45 | an option is parsed from the arguments it takes with it, whatever follows them |
| `InterspersedFlags.MarkerSwallowed` | cmd/contextbridge/interspersed_flags.go:28-50 | a last option that lacks its value fails when read in place, and still fails after the rewrite only if there is no positional |
| `InterspersedFlags.ParseAgrees` | cmd/contextbridge/interspersed_flags.go:14-50 | from any point of the walk the rewritten list parses to what reading in place gives, failures alike, if and only if the marker is not swallowed |
| `InterspersedFlags.RewriteKeepsMeaning` | cmd/contextbridge/interspersed_flags.go:14-50 | a command line parses as written if and only if it does not end, after some positional and with all else parsed, in an option that still waits for its value |
| `InterspersedFlags.SwallowExample` | cmd/contextbridge/interspersed_flags.go:14-50 | the failure is real: with a value option c, the line "x -c" is rewritten to "-c -- x", which assigns the marker to c, while reading in place fails |
| `SampleDispatch.InvHolds` | internal/bridge/performance_measure.go:88-121 | the invariant holds, and samples and workers stay as many as they were, in every state of every interleaving of producer, workers and cancellation |
| `SampleDispatch.AtMostOnce` | internal/bridge/performance_measure.go:94-107 | in every interleaving the operation runs at most once on each index below the sample count |
| `SampleDispatch.NilMeansAllSucceeded` | internal/bridge/performance_measure.go:88-121 | in every run, returning no error means the operation ran exactly once on every index below the sample count and succeeded |
| `SampleDispatch.ErrorIsTheFirst` | internal/bridge/performance_measure.go:101-120 | in every run the result is the error whose once.Do was entered first, and none if none was |
| `SampleDispatch.ReturnedErrorIsGenuine` | internal/bridge/performance_measure.go:101-120 | in every run a returned error was returned by some operation, or is the error of a context that was cancelled |
| `SampleDispatch.NeverStuck` | internal/bridge/performance_measure.go:88-121 | in every run with at least one worker some step is possible before the return |
| `SampleDispatch.NoWorkersStuck` | internal/bridge/performance_measure.go:109-118 | without workers, an uncancelled producer that has a sample to hand out can take no step |
| `SampleDispatch.RankDrops` | internal/bridge/performance_measure.go:88-121 | every program step lowers a rank, whatever the schedule |
| `SampleDispatch.RunsAreBounded` | internal/bridge/performance_measure.go:88-121 | every schedule takes a bounded number of program steps, so it ends |
| `AgentBudget.AgentRunBudget.constructor` | cmd/contextbridge/agent.go:752-757 | enforcement is on exactly when the maximum is positive |
| `AgentBudget.AgentRunBudget.Authorize` | cmd/contextbridge/agent.go:769-782 | a counted provider is told the remaining amount, or refused when nothing is left |
| `AgentBudget.AgentRunBudget.Consume` | cmd/contextbridge/agent.go:784-793 | only a counted provider under enforcement changes the remaining amount, and a refused reservation leaves it |
| `AgentBudget.AgentRunBudget.ConsumeReservation` | cmd/contextbridge/agent.go:795-808 | a reservation is taken exactly when it is finite, not negative and fits within the tolerance; a remainder below zero by no more than the tolerance becomes zero |
| `AgentBudget.NewRunBudget` | cmd/contextbridge/agent.go:752-767 | the planner's reservation is taken first, or the run is refused; authority and share then balance |
| `AgentBudget.BalanceKept` | cmd/contextbridge/agent.go:795-808 | taking a reservation keeps spent plus remaining within one tolerance of the maximum |
| `AgentBudget.ToleranceAloneAddsUp` | cmd/contextbridge/agent.go:769-808 | without the refusal at zero, reservations within the tolerance could be repeated any number of times |
| `AgentAllowlist.SplitAllowlist` | cmd/contextbridge/agent.go:810-822 | the result is strictly sorted and holds exactly the trimmed, lowered, non-empty parts |
| `AgentAllowlist.SplitOfJoin` | cmd/contextbridge/agent.go:1112 | splitting the joined list gives the entries back when none holds a comma |
| `AgentAllowlist.ParsedIsNormalized` | cmd/contextbridge/agent.go:810-822 | every parsed list is sorted, free of duplicates and unchanged by trimming and lowering |
| `AgentAllowlist.ParseJoin` | cmd/contextbridge/agent.go:1112-1118 | parsing the joined list gives the list back |
| `AgentAllowlist.NewAgentPolicy` | cmd/contextbridge/agent.go:594-628 | a policy is built if and only if the settings describe an acceptable one, and it is that one |
| `AgentAllowlist.RevalidatePolicy` | cmd/contextbridge/agent.go:1112-1118 | rebuilding and comparing accepts exactly the acceptable policies with normalized lists |
| `AgentAllowlist.BuiltPolicyPasses` | cmd/contextbridge/agent.go:1112-1118 | every policy that can be built passes the later check, and building again from its joined lists gives that policy and no other |
| `AgentAllowlist.AsciiIsLawful` | cmd/contextbridge/agent.go:810-822 | ASCII blanks and letters satisfy what is asked of trimming and lowering |
| `AgentHandoff.ValidateStep` | cmd/contextbridge/agent.go:1126-1157 | one step is accepted exactly when it keeps the rules on provider, profile, hand-over marker and predecessor |
| `AgentHandoff.ValidateSteps` | cmd/contextbridge/agent.go:1122-1157 | a plan is accepted exactly when its length, all its steps and the distinctness of identifiers are right |
| `AgentHandoff.FeedsExactly` | cmd/contextbridge/agent.go:1493-1499 | in a valid plan a step feeds an exact request if and only if the next step is an adapter using its result |
| `AgentHandoff.ExactInput` | cmd/contextbridge/agent.go:913-944 | the input of an adapter step that uses the previous result is the strict reading of it, in JSON, and exists only under a contract |
| `AgentHandoff.FeederInput` | cmd/contextbridge/agent.go:1501-1520 | the input of a step that feeds an adapter demands JSON and shows the trimmed instruction with the adapter's trimmed contract |
| `AgentRun.SubmitStep` | cmd/contextbridge/agent.go:487-543 | a step is submitted with its input and ceiling, or the first obstacle is named: no input, no route, no authority left, or no consent |
| `AgentRun.SettleStep` | cmd/contextbridge/agent.go:544-565 | a job that failed, overdrew or gave no text ends the run with that reason, in this order; otherwise its result and the authority left are carried on |
| `AgentRun.ExecutePlan` | cmd/contextbridge/agent.go:481-571 | the run submits exactly the jobs, with exactly the inputs and ceilings, and stops for exactly the reason, that the steps and the answers determine |
| `AgentRun.OneRun` | cmd/contextbridge/agent.go:481-571 | that description admits one run only, so no job is dropped or added and no reason exchanged |
| `AgentRun.CeilingsAreExact` | cmd/contextbridge/agent.go:526-531 | every submitted job that is charged was told exactly the authority unspent by the planner and all earlier charged jobs; the others were told no ceiling |
| `AgentRun.TotalIsBounded` | cmd/contextbridge/agent.go:544-559 | over all submitted jobs, failed and overdrawn ones included, the total stays within the authority plus one tolerance if and only if the last job kept to its ceiling; all earlier ones did |
| `AgentRun.BoundUnlessOverdrawn` | cmd/contextbridge/agent.go:481-571 | a run that ends for any reason but a failed or overdrawn job stays within the authority plus one tolerance |
| `AgentRun.OverdraftExample` | cmd/contextbridge/agent.go:544-559 | the bound can fail: a job told a ceiling of 1 reserves 100 and is submitted before that is known |
| `AgentRun.HandOverIsExact` | cmd/contextbridge/agent.go:487-562 | a submitted adapter step using the previous result follows a submitted non-adapter step that was forced to JSON and shown that adapter's non-blank contract, and its text is the strict reading of that step's result |
| `AgentRun.OnlyFeedersAreShownContracts` | cmd/contextbridge/agent.go:1493-1520 | no other submitted step is shown a contract as its output format |
| `StableSort.SortIsStablySorted` | cmd/contextbridge/selftest.go:512-532 | sorting gives a permutation in the order of the comparator in which ties keep their order |
| `StableSort.HeadIsFirstLeast` | cmd/contextbridge/selftest.go:512-533 | the head of a stably sorted list is the first of its least elements |
| `SelftestPlan.BeforeTransitive` | cmd/contextbridge/selftest.go:512-532 | the candidate comparator is a strict weak order, unknown sizes counted as the largest |
| `SelftestPlan.BeforeTotal` | cmd/contextbridge/selftest.go:512-532 | two candidates are tied exactly when loaded state, effective size, name and identifier agree |
| `SelftestPlan.ModelBeforeIsStrictWeak` | cmd/contextbridge/selftest.go:586-601 | the model comparator is a strict weak order |
| `SelftestPlan.CompatibleModels` | cmd/contextbridge/selftest.go:562-603 | the result is a permutation of the compatible models in the order of the comparator, ties in the order advertised |
| `SelftestPlan.ChosenModelIsPreferred` | cmd/contextbridge/selftest.go:450-459 | the model a node is asked for is, of the compatible ones that none is before, the first it advertises |
| `SelftestPlan.LocalShows` | cmd/contextbridge/selftest.go:445-463 | what one fresh node adds for local work: its preferred model if the scheduler consents, or the mark of a full node |
| `SelftestPlan.SessionsShow` | cmd/contextbridge/selftest.go:469-488 | what the sessions of one node add: its target if one of them waits and the scheduler consents, or a busy or full mark |
| `SelftestPlan.ScanOneNode` | cmd/contextbridge/selftest.go:438-491 | what one node adds for a kind, stale nodes included |
| `SelftestPlan.NodeShows` | cmd/contextbridge/selftest.go:438-490 | a node yields exactly the target it offers, described by the node alone; so is each mark of the scan |
| `SelftestPlan.OneOffer` | cmd/contextbridge/selftest.go:438-490 | a node offers one target at most |
| `SelftestPlan.PoolMeans` | cmd/contextbridge/selftest.go:435-490 | the marks of a scanned pool say exactly which situations occur in it |
| `SelftestPlan.BuildPlan` | cmd/contextbridge/selftest.go:433-536 | the plan answers every requested kind in order, once each: the best target if some node offers the kind, otherwise the one reason that explains why none does |
| `SelftestPlan.PlanAnswers` | cmd/contextbridge/selftest.go:433-536 | the computed plan satisfies that description, which mentions neither scan nor sort |
| `SelftestPlan.EveryKindAnswered` | cmd/contextbridge/selftest.go:433-536 | each requested kind gets one target or one reason |
| `SelftestPlan.OneExplanation` | cmd/contextbridge/selftest.go:491-511 | the seven reasons exclude each other |
| `SelftestPlan.OneAnswer` | cmd/contextbridge/selftest.go:433-536 | with distinct node identifiers only one plan satisfies the description |
| `SelftestPlan.PlanIgnoresNodeOrder` | cmd/contextbridge/selftest.go:433-536 | with distinct node identifiers the plan does not depend on the order or repetition of the nodes |

## Left out

Whole features:

- HTTP, sockets, process control, timeouts, files and secrets of the conformance runner: a run is a sequence of events.
- Concurrent requests inside the conformance core: one request is one event, although the source releases its lock between counting a request and handling it.
- JSON lexing, UTF-8 and number syntax: the decoder works on tokens, a malformed one included, and a body over the size limit is a flag.
- The other embedding decoder, for Ollama replies (`internal/bridge/embedding_decode.go:87-121`), uses the same loops without indexes.
- The rest of audio input validation: name, media type and base64 (`internal/bridge/audio.go:28-50`).
- Latency percentiles and warm-up around the dispatcher (`internal/bridge/performance_measure.go:23-86`, `123`).
- Plan digests, binding checks, planner prompts and provider routing of agent runs; whether a provider's cost counts is a parameter.
- Parsing of self-test provider names, polling for a plan and running its jobs.

Deliberate limits of single members:

- OpusInspect.InspectOggOpus: does not distinguish error messages, because every refusal carries only text.
- OpusInspect.DamagedRecordingRejected: leaves out damage to the segment table, which moves the end of the page, and damage that hits the checksum field together with other bytes; the inspector's accepting condition covers those.
- AdapterCore.AdapterConformanceCore.HandleLeaseAction: request bodies arrive decoded, absent when decoding fails, because the JSON library is outside the model; heartbeats included.
- AdapterCore.AdapterConformanceCore.HandleComplete: output normalization and re-encoding of the payload are given as facts of the request.
- AdapterCore.AdapterConformanceCore.ServeHTTP: reply bodies are left out except the lease that a grant carries.
- EmbeddingDecoder.Decoder.DecodeVector: numbers are real; a number the library cannot store in 32 bits is a malformed token, and rounding is left out.
- InterspersedFlags.ParseInterspersed: the standard flag package is a function written from its documented behaviour; values are judged by a parameter.
- SampleDispatch.InvHolds: a step is one access to shared state under sequential consistency; the operation may return any outcome and is assumed to return.
- AgentBudget.AgentRunBudget.ConsumeReservation: amounts are real with the infinities and NaN of floating point, without rounding.
- AgentAllowlist.SplitAllowlist: blanks and lowering are parameters that map one character to one character.
- AgentRun.ExecutePlan: routes, consent and what each job comes to are given; a submission that never reached the relay counts as a failed job; contracts, trimming and strict JSON reading are parameters.
- AgentHandoff.ValidateStep: the size and encoding rule for instructions is a parameter.
- SelftestPlan.BuildPlan: the scheduler's consent is a parameter, and whether a node was last seen too long ago is given.
- SelftestPlan.CompatibleModels: case-insensitive comparison is equality after lowering.
