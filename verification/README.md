# Verified models of the command service's durable protocols

This project states, in Dafny, what four stateful parts of the command service
promise, and proves it over every run:

- the durable chat frame log (`src/chat/frame-log.ts`, `src/chat/frames.ts`);
- the pre-dispatch briefing review (`src/briefing-review/`);
- the quota admission of uploads (`src/attachments/resolver.ts`);
- the immutable publication of artifacts (`src/artifacts/context.ts`);

and two loops: the one-pass `.npmrc` redaction (`src/redaction.ts`) and the
paged receipts route (`src/board/server.ts`).

`dafny verify dfyconfig.toml` checks all of it.

## How the models are built

Code that changes fields, files or a ledger step by step is a class whose
methods follow the source's branches (`FrameLog.ChatFrameLog`,
`FrameLog.Directory`, `BriefingService.Service`, `UploadsDirectory.UploadsDir`,
`ArtifactStore.Store`). Each method is proved equal to a function of the old
state, and the theorems are about those functions over runs. Where several
processes share a directory, a run is a sequence of single file-system calls
by any number of processes, any of which may stop for ever between two calls.

**Chat frame log.** `ChatFrames` is the codec: JSON values, the validation of
every server frame, and the object a logged frame is stored as. JSON text
itself is a parameter (`JsonText`) with one hypothesis (`Sound`) about the
frames the log can store: such a frame's object prints on one line, reads back,
and no proper prefix of its text, the empty text included, is JSON.
`SoundJson.SoundJsonExists` exhibits a `JsonText` that meets it.
`FrameText`, `FrameHistory` and `FrameReading` define loading and prove what it
makes of whole, torn and unterminated files and of shards. `FrameAppending` is
one append with its rotation. `FrameRuns` is the run: boots with any retention
policy, appends, crashes after any number of bytes of a line, stops.
`FrameTheorems` holds the results and `FrameLog` the class; the last of the
results, `FrameTheorems.BootSettles`, is a whole boot after any run, closing
frames included. `FrameDamage` is about any directory at all, whatever its
lines hold; `FrameSizes` says when an append rotates and bounds every file;
`FrameTurns` tells from the frames alone what a history leaves open. A run is
bounded by the longest line it writes and by the least `maxBytes` it boots with;
the results need twice the former to fit the latter, `keep` of at least 1, and a
counter that stays a safe integer.
`FrameRetention.EmptyLiveFileMustNotRotate`,
`FrameTheorems.MissingSlotOneIsRefused`, `FrameReading.LoadAcceptsExactly` and
`ChatFrames.AcceptedFramesReadBack` show what happens without them: the loader
refuses a directory whose count it can no longer found, and an error frame
appended past the safe integers is accepted and then reads back without its
seq. `FrameRetention` also says what a boot with another retention finds open in
a settled log: nothing with a smaller one, and with a larger one exactly what
the held frames do not end.

**Briefing review.** `BriefingLedger` has the events and the readers,
`BriefingGate` the dispatch gate, `BriefingService` the service. A run
(`BriefingRuns`) interleaves commissions, lens dispatches, lens results,
push-backs and dispatch decisions in any order; `BriefingRuns.LedgerOk` is what
every reachable ledger satisfies, and `BriefingTheorems` the results.
`GateDecisions` and `ServiceDecisions` say what the gate, a commission, a lens
result and a push-back answer and append on every reachable ledger, in terms of
its records alone. A
push-back is not always idempotent: after a tier raise the same request is
recorded a second time, and `BriefingTheorems.RaiseMakesPushbackRepeat` is a run
that does so. A review helper that cannot be loaded, a lens dispatch that throws
part-way, the notifications and the report debts are part of the service. The
sha256 identities are the tuples they digest, so they are injective.

**Uploads.** `UploadClaims` ranks claims; `UploadProtocol` is the concurrent
protocol with its two invariants, one for the audit and one for the ordered
election, and a run that shows the election alone can overbook when claims
appear out of rank order. The comment above the protocol promises "never an
overbook"; the code keeps that for writers that live through their audit.
`UploadCrashes` gives a run in which two writers die between their rename and
their audit and leave two payloads over a cap of one with nobody left to audit;
it proves the cap whenever no writer dies there, bounds what is over it by the
writers that did and those that have yet to audit, and attains that bound for
every positive cap and every number of lost writers. `UploadsDirectory` is
`materializeUpload`, with every file-system call that can fail, over a directory
that another process may change between any two calls after the cleanup. A writer whose audit
scan or rollback fails leaves its payload unaudited, as a dead one does: in the
protocol it is a process that dies and joins again.

**Publication.** `PublicationDisk` models inodes, names and records;
`PublicationProtocol` the readers, publishers and writers one call at a time;
`PublicationSafety` what every interleaving keeps; `PublicationProgress` that
every process comes to its end and that identical writers never fail one
another; `ArtifactStore` the uninterrupted calls on any disk an interrupted run may have left, and
`SoloReading` ties the protocol's reader to them.

## Model

| member | source | states |
|---|---|---|
| `ChatFrames.AcceptedFramesReadBack` | src/chat/frame-log.ts:252-264 | an append's check accepts a frame exactly when its fields are well formed (and its seq is safe, unless it is an error frame); an accepted frame reads back as it was logged exactly when its seq is a safe integer |
| `ChatFrames.UserReadsBack` | src/chat/frames.ts:391-419 | a user frame with optional epoch and chips survives its own object, or is malformed, decided by its fields alone |
| `ChatFrames.ErrorReadsBack` | src/chat/frames.ts:420-428 | an error frame reads back with its fatal flag, and with its seq only while that is a safe integer |
| `ChatFrames.PlainReadsBack` | src/chat/frames.ts:369-390 | ack, delta, tool, turn and notice frames read back exactly when well formed |
| `ChatFrames.ParseAttachments` | src/chat/frames.ts:214-236 | the loop over attachment entries yields every chip in order, or nothing when some entry is malformed or the count is not 1 to 8 |
| `ChatFrames.ChipsOfObjects` | src/chat/frames.ts:221-235 | stored chips are read back in order exactly when every one is within its limits |
| `ChatFrames.LinesReadBack` | src/chat/frame-log.ts:266-268 | a logged frame's line holds no newline, parses back to the frame, and every proper prefix of it is a torn line |
| `SoundJson.SoundJsonExists` | src/chat/frame-log.ts:266-268 | the hypothesis on JSON text is met: one text form prints every loggable frame on one line, reads it back, and reads no proper prefix of it |
| `FrameText.LinesOfText` | src/chat/frame-log.ts:161-163 | complete lines followed by an unfinished one split into exactly those lines |
| `FrameText.TailIs` | src/chat/frame-log.ts:143-145 | the text after the last newline is the unfinished line |
| `FrameReading.ReadsLines` | src/chat/frame-log.ts:164-225 | the lines of consecutive frames load exactly when the first continues the count or founds it in the oldest shard; then memory is extended by exactly those frames |
| `FrameReading.ReadsText` | src/chat/frame-log.ts:132-226 | a whole file loads under that same condition and is left as it is |
| `FrameReading.ReadsTorn` | src/chat/frame-log.ts:170-181 | a torn final line is dropped from history and file, nothing else is, and the believed size still counts it |
| `FrameReading.ReadsUnterminated` | src/chat/frame-log.ts:143-158 | a final frame that only misses its newline is kept and the file is terminated |
| `FrameReading.ReadsShards` | src/chat/frame-log.ts:104-112 | shards read oldest first give the concatenation of their frames exactly when the first continues the count or the oldest shard founds it; otherwise loading is refused |
| `FrameReading.ReadsDirectory` | src/chat/frame-log.ts:90-124 | a directory of consecutive shards and a whole, torn, unterminated or absent live file loads as all its frames and is left mended |
| `FrameReading.LoadAcceptsExactly` | src/chat/frame-log.ts:126-131 | consecutive whole files are accepted if and only if there is no frame, the first seq is 1, or the oldest shard holds a frame |
| `FrameDamage.LoadRefusesExactlyDamage` | src/chat/frame-log.ts:132-226 | for any directory at all: it loads if and only if every line of every file read, a torn final line of a file apart, is a logged non-fatal frame whose seq continues the count; memory then holds exactly those frames and each file is left as exactly its lines; otherwise the first line that is not such a frame is named by file, number and problem |
| `FrameDamage.FaultsAgree` | src/chat/frame-log.ts:164-225 | a directory has at most one first break, with one problem |
| `FrameAppending.RotatedSlots` | src/chat/frame-log.ts:282-307 | after a rotation each slot holds what the slot below held, slot 1 the live file, and the pruned range nothing |
| `FrameRuns.RotatedShards` | src/chat/frame-log.ts:293-305 | after a rotation the slots hold the newest `keep` of the former shards and the live file, in order, so that no shift overwrote a retained shard |
| `FrameRuns.RotatedBounds` | src/chat/frame-log.ts:282-307 | a rotation leaves slots 1 to the shards kept and, past `keep`, only slots beyond the 99 it prunes |
| `FrameRuns.RotatedHistory` | src/chat/frame-log.ts:276-281 | a rotation loses no frame: what is pruned, kept and live together are the history as before |
| `FrameRuns.RotationKeepsDisk` | src/chat/frame-log.ts:282-307 | a rotation of a non-empty live file keeps the directory's invariant |
| `FrameSizes.RotatesExactlyWhenFull` | src/chat/frame-log.ts:282-307 | an append whose believed size is what is on disk rotates if and only if those bytes and the line exceed `maxBytes`; what every slot and the live file then hold is told from the files before |
| `FrameSizes.EveryRunStaysSmall` | src/chat/frame-log.ts:276-307 | over every run whose lines fit the bounds, the live file and every shard are at most the largest `maxBytes` booted with, so the directory holds at most one such file more than the largest `keep` |
| `FrameRuns.WritesPart` | src/chat/frame-log.ts:266-272 | however many bytes of a line reach the disk, the directory holds the history, with the new frame exactly when all but its newline was written |
| `FrameRuns.ReloadReads` | src/chat/frame-log.ts:90-124 | what a load reads from any directory a run can leave, in terms of the history |
| `FrameRuns.StepKeepsWorld` | src/chat/frame-log.ts:90-307 | every boot, append, crash and stop keeps the invariant of directory and memory |
| `FrameRuns.EveryRunIsOk` | src/chat/frame-log.ts:46-59 | every reachable directory and memory satisfy that invariant |
| `FrameTheorems.CrashAndReload` | src/chat/frame-log.ts:82-124 | however a run stopped, the next load succeeds with exactly a suffix of everything appended, counter at the last fully written frame, an idempotent repair, and frames missing only when at least the least `keep` shards, all full, follow |
| `FrameTheorems.DiskRefinesMemory` | src/chat/frame-log.ts:49-51 | between appends the directory needs no repair and reads back as the end of the memory up to the same seq; the memory is the end of the history; the tracked state is a fold of the held frames; no slot past the largest `keep` is used |
| `FrameTheorems.MissingSlotOneIsRefused` | src/chat/frame-log.ts:104-115 | with slot 1 missing, a non-empty live file loads if and only if it starts at seq 1 |
| `FrameTheorems.ClosingSettles` | src/chat/frame-log.ts:320-330 | settling appends one closing frame per open tool, newest first, and one for the turn, is never refused, and leaves a history whose own replay finds nothing open |
| `FrameTheorems.BootSettles` | src/chat/frame-log.ts:90-124 | after any run a whole boot succeeds: the closing frames are appended with the next seqs, nothing is open, memory is the end of the history and those frames, and the directory reads back as the end of that with nothing to mend |
| `FrameTurns.TurnIsOpen` | src/chat/frame-log.ts:349-351 | the tracked turn is open if and only if the last turn frame of the history is a start |
| `FrameTurns.OpenToolsStillRun` | src/chat/frame-log.ts:341-348 | the open tools are, in the order they started, those whose name never since ended more often than it started |
| `FrameTurns.BootEndsWhatRuns` | src/chat/frame-log.ts:320-330 | a whole boot after any run appends one end per tool still running, newest first, and exactly one end of turn when the last turn frame read is a start; then no turn is open and no tool runs in the frames held |
| `FrameTheorems.SuffixOpensNoMore` | src/chat/frame-log.ts:332-355 | replaying only the end of a history finds nothing open that replaying the whole does not |
| `FrameTheorems.OpenToolsAreNamed` | src/chat/frame-log.ts:322-325 | every open tool has the non-empty name its closing frame needs |
| `FrameTheorems.HasSeenMeansHeld` | src/chat/frame-log.ts:242-245 | a user id is seen if and only if the held frames have it in this epoch, or unstamped with a seq past the replay floor |
| `FrameTheorems.ReplayIsTheRest` | src/chat/frame-log.ts:309-313 | a reconnect replays a suffix of the held frames, and its length is the distance from the floor to the high-water seq, cut to what is held |
| `FrameRetention.SettledStaysSettled` | src/chat/frame-log.ts:315-330 | a settled log booted again with any retention: with the same or a smaller one it owes no closing frame, however much was dropped meanwhile; where a larger one reads older frames, it owes none if and only if the held frames end, beyond their own starts, every tool those leave open and name the turn if those leave one open |
| `FrameRetention.ReopensExactly` | src/chat/frame-log.ts:332-355 | whatever two histories, the first in front of a settled second leaves nothing open exactly under that condition on open counts, starts and ends |
| `FrameRetention.LargerRetentionReopens` | src/chat/frame-log.ts:315-330 | a concrete directory that retention 1 reads as settled and retention 2 as owing one closing frame |
| `FrameRetention.EmptyLiveFileMustNotRotate` | src/chat/frame-log.ts:282-307 | for every retention and every number of appends after a live file without frames: the directory they leave is unreadable if and only if the first of them rotates that file and they rotate exactly `keep` times, so that the empty shard is the oldest one read |
| `FrameLog.ChatFrameLog.Load` | src/chat/frame-log.ts:90-124 | opening the log is reading the directory followed by the closing frames, or the damage found |
| `FrameLog.ChatFrameLog.ReadDirectory` | src/chat/frame-log.ts:101-115 | the slot scan and the loading loops compute `Reading`, repairs included |
| `FrameLog.ChatFrameLog.LoadFile` | src/chat/frame-log.ts:132-226 | loading one file computes `ReadText`: the new memory or the exact corruption, and the file's new text |
| `FrameLog.ChatFrameLog.TakeLines` | src/chat/frame-log.ts:164-225 | the line loop extends the memory line by line or stops at the first bad line with its number |
| `FrameLog.ChatFrameLog.TrackFrame` | src/chat/frame-log.ts:332-355 | the tracked fields after a frame are the fold's next state |
| `FrameLog.ChatFrameLog.AppendFrame` | src/chat/frame-log.ts:252-274 | an append computes `Appending`: outcome, memory, believed size and directory; a refused frame changes nothing |
| `FrameLog.ChatFrameLog.RotateIfNeeded` | src/chat/frame-log.ts:282-307 | the files stay as they are while the believed size and the line fit `maxBytes`; otherwise the prune and shift loops and the rename leave every slot as told from the files before, an empty live file and a size of 0 |
| `FrameLog.ChatFrameLog.SettleOpenTurn` | src/chat/frame-log.ts:320-330 | the settling loop appends exactly the owed closing frames and ends with the open tools as its measure |
| `FrameLog.ChatFrameLog.HasSeen` | src/chat/frame-log.ts:242-245 | the dedup answer of the running log is whether the frames it holds have that user id in this epoch, or unstamped past the replay floor |
| `FrameLog.ChatFrameLog.Replay` | src/chat/frame-log.ts:309-313 | the frames replayed are exactly the held ones past the larger of the two floors, a suffix |
| `BriefingTypes.RaisedLensesAreTheTiers` | src/briefing-review/types.ts:196-199 | a tier's lenses united with a higher tier's are the higher tier's, in its order |
| `BriefingTypes.AssertFindingEvidence` | src/briefing-review/types.ts:358-385 | the loop accepts findings exactly when each quotes the trimmed briefing within bounds and the verdict agrees with their severities |
| `BriefingTypes.EvidenceIs` | src/briefing-review/types.ts:358-385 | a result's evidence holds if and only if each finding quotes, up to white space at its end, a span of 8 to 2000 characters of the trimmed briefing, and it is READY exactly when no finding blocks |
| `BriefingTypes.TrimIs` | src/briefing-review/types.ts:363-366 | trimming drops exactly the white space at both ends |
| `BriefingTypes.MarkerRoundTrip` | src/briefing-review/types.ts:208-226 | a briefing framed by markers is read back exactly, whatever markers or edge newlines it contains |
| `BriefingTypes.ReviewedBriefingIsExact` | src/briefing-review/types.ts:219-226 | reading a lens job back yields the briefing if and only if the text before has no open marker and the text after no close marker |
| `BriefingLedger.TrailingChangesNeeded` | src/briefing-review/events.ts:321-331 | the loop from the newest review counts the trailing run of CHANGES-NEEDED rounds |
| `BriefingGate.CountChainAtCap` | src/briefing-review/gate.ts:106-113 | the gate's loop is true exactly when its trailing run reached the cap |
| `BriefingGate.StagesOnlyTighten` | src/briefing-review/gate.ts:160-279 | admission only shrinks from stage 1 to 2 to 3, auto equals 3, and stages that both admit attach the same provenance |
| `BriefingService.Service.Commission` | src/briefing-review/service.ts:353-449 | a commission whose helper loads arms at most one record, as `Arming` says, and dispatches exactly the armed lenses without a job row; a dispatch that throws refuses it but keeps the record and the jobs before it; disabled or without its helper it changes nothing |
| `BriefingService.Service.DispatchLenses` | src/briefing-review/service.ts:330-351 | the loop adds exactly the missing lens jobs and reports whether there were any, or stops at the first lens whose dispatch throws, with exactly the missing jobs before it added |
| `BriefingService.Service.SubmitResult` | src/briefing-review/service.ts:453-548 | an accepted result is in the ledger with its lens, verdict and findings; a new one appends one event, announces a decision once per generation and settles the answerable debt of its own job; a refusal or a repeat changes nothing; the outcome is as `Submitting` says |
| `BriefingService.Service.Announce` | src/briefing-review/service.ts:602-625 | a decided generation is notified once, whatever is posted again under its id |
| `BriefingService.Service.SettleLensReport` | src/briefing-review/service.ts:627-652 | exactly an open, waiting or suspended debt of that job is settled, and a settlement that fails changes nothing |
| `BriefingService.Service.PushBack` | src/briefing-review/service.ts:656-704 | an accepted push-back is in the ledger with the reason asked for; at most one event is appended and none on a refusal; the outcome is as `PushingBack` says |
| `BriefingService.Service.AdmitDispatch` | src/briefing-review/service.ts:769-796 | a dispatch decision records an event exactly for a refusal that carries a reason, that one event; an admission records nothing; which dispatches are refused is `GateDecisions` |
| `BriefingRuns.ReadsAreWhole` | src/briefing-review/events.ts:227-273 | a review has at most 3 generations, 5 verdicts and 3 push-backs, so no per-review read is cut by its limit |
| `BriefingRuns.NewVerdictSettlesRightly` | src/briefing-review/service.ts:507-521 | a first result is decisive exactly when the review is undecided and it is CHANGES-NEEDED or completes the lenses |
| `BriefingRuns.ArmingIsSound` | src/briefing-review/service.ts:353-449 | whatever a commission arms continues its review's generations, and only while undecided |
| `BriefingRuns.StepKeepsLedger` | src/briefing-review/service.ts:353-796 | every service call keeps the facts of every review and chain |
| `BriefingRuns.EveryLedgerIsOk` | src/briefing-review/service.ts:353-796 | every reachable ledger satisfies them |
| `BriefingTheorems.SingleDecision` | src/briefing-review/service.ts:507-518 | a decisive verdict is its review's only one for ever, lies in the newest generation, and no later call opens another generation |
| `BriefingTheorems.AggregateIsOrderIndependent` | src/briefing-review/service.ts:507-518 | the decision depends only on which results exist: CHANGES-NEEDED if any, else READY once every armed lens reported, else none |
| `BriefingTheorems.DecisionReads` | src/briefing-review/events.ts:283-289 | reading the newest generation's decisive verdict and reading any agree |
| `BriefingTheorems.CapComputationsAgree` | src/briefing-review/gate.ts:106-113 | on every reachable ledger the gate's cap and the commission's cap are the same |
| `BriefingTheorems.ChainBookkeeping` | src/briefing-review/service.ts:386-443 | a review keeps one chain and one round, equal to its place in the chain; generations, tiers and lenses only grow; at most 3 generations |
| `BriefingTheorems.CaughtMeansSuperseded` | src/briefing-review/events.ts:300-317 | a revision caught something if and only if the round before it reached CHANGES-NEEDED |
| `BriefingTheorems.RepeatedResultConverges` | src/briefing-review/service.ts:495-506 | repeating an accepted result in any later state appends nothing and answers as recorded |
| `BriefingTheorems.RepeatedCommissionArmsNothing` | src/briefing-review/service.ts:372-384 | commissioning again at an equal or lower tier, under any title and in any later state, arms nothing |
| `BriefingTheorems.RepeatedPushback` | src/briefing-review/service.ts:674-684 | repeating an accepted push-back appends again if and only if a raise opened a generation without one and the review is not READY; in the same generation it appends nothing and answers as it first did, or that the review is READY by now; any repeat that appends nothing answers as recorded |
| `BriefingTheorems.RaiseMakesPushbackRepeat` | src/briefing-review/service.ts:674-684 | a concrete run: commissioned low, pushed back, raised high; the same push-back is then recorded again, for the second generation |
| `BriefingTheorems.ReadyMeansEveryLens` | src/briefing-review/events.ts:291-296 | a READY decision means every lens of the newest generation said READY |
| `BriefingTheorems.GateSoundness` | src/briefing-review/gate.ts:160-279 | admission at a stage that enforces the review's tier implies READY from every lens or a push-back in that generation; without an exact review an enforced review in the chain means refusal; attached provenance is true of the ledger |
| `GateDecisions.ClaimIsAdmittedExactly` | src/briefing-review/gate.ts:163-229 | on every reachable ledger a dispatch that claims a review is admitted if and only if the review exists, its newest generation has no push-back, the sha is the briefing's, the round its place in its chain and the verdict its decision, READY or of a tier the stage does not hold; the provenance attached and every other answer are given too |
| `GateDecisions.UnclaimedIsAdmittedExactly` | src/briefing-review/gate.ts:231-279 | a dispatch that claims none is admitted if and only if its review is READY, pushed back or of a tier not held, or the stage is 1, or there is no review and no held one in the chain; each refusal's code, recorded reason and tier are given |
| `GateDecisions.HoldsIsEnforced` | src/briefing-review/types.ts:172-180 | stage 1 holds no tier, stage 2 high, stage 3 and auto high and medium |
| `GateDecisions.CapIsRead` | src/briefing-review/gate.ts:106-113 | the gate's cap is that the chain's last three reviews all decided CHANGES-NEEDED |
| `ServiceDecisions.CommissionIsDecidedExactly` | src/briefing-review/service.ts:353-449 | what every commission answers and the record it arms, field by field: it converges on an equal or lower tier, opens the next generation of an undecided review, or the next round of a chain whose last three did not all reach CHANGES-NEEDED |
| `ServiceDecisions.ResultIsDecidedExactly` | src/briefing-review/service.ts:453-548 | what every lens result answers and records: it is taken whenever its lens is armed and dispatched and its evidence holds, also after a decision, when it decides nothing; only another result of its lens is in its way |
| `ServiceDecisions.PushbackIsDecidedExactly` | src/briefing-review/service.ts:656-704 | a push-back is refused on a READY review, answered from the record if the newest generation has one, and otherwise recorded for it |
| `ServiceDecisions.CaughtIsCounted` | src/briefing-review/events.ts:300-317 | what a revision caught is the number of blocking findings in all results of the round before it, if that reached CHANGES-NEEDED, and otherwise 0 |
| `UploadClaims.BeforeIsStrictOrder` | src/attachments/resolver.ts:224-228 | the rank comparison is a strict total order on names |
| `UploadClaims.RankSorts` | src/attachments/resolver.ts:224-228 | ranking sorts exactly the given claims |
| `UploadClaims.RankIsOrderIndependent` | src/attachments/resolver.ts:220-228 | a claim's rank is the number of claims ahead of it, whatever order the directory lists them in |
| `UploadProtocol.StepKeepsSane` | src/attachments/resolver.ts:157-174 | a claim is owned by the process in flight with it and stays while its live writer needs it |
| `UploadProtocol.AuditBackstop` | src/attachments/resolver.ts:339-353 | in every interleaving, payloads whose audit is over never exceed the cap; the payload of a writer that died before its audit is not among them |
| `UploadCrashes.DeadWritersBoundTheOverbook` | src/attachments/resolver.ts:339-353 | in every run payloads exceed the cap by no more than the writers yet to audit and those that died before they did |
| `UploadCrashes.CapHoldsWithoutLostAudits` | src/attachments/resolver.ts:157-174 | over every run in which no process dies between its rename and the end of its audit, payloads fit the cap whenever no process is auditing |
| `UploadCrashes.CrashBeforeAuditOverbooks` | src/attachments/resolver.ts:157-174 | a concrete run that ends with no process alive and two payloads over a cap of one |
| `UploadCrashes.LostAuditsCanAllOverbook` | src/attachments/resolver.ts:339-353 | for every positive cap and every number of lost writers, a run from the empty directory with every scan exact that ends with nobody auditing and exactly that many payloads over the cap: the bound is attained |
| `UploadCrashes.ZeroCapAdmitsNothing` | src/attachments/resolver.ts:315-323 | with a cap of zero no run ever holds a payload, so there the bound is not attained |
| `UploadProtocol.ReclaimSparesLiveWriters` | src/attachments/resolver.ts:241-277 | cleanup never takes a claim a live writer still needs |
| `UploadProtocol.RenameKeepsSlack` | src/attachments/resolver.ts:324-329 | a rename keeps every other elected claim's room, whichever of the two ranks first |
| `UploadProtocol.ClaimKeepsElection` | src/attachments/resolver.ts:300-313 | a new claim keeps the election's invariant if and only if every elected claim it ranks before has a slot to spare |
| `UploadProtocol.OrderedElectionNeverOverbooks` | src/attachments/resolver.ts:300-329 | when claims appear in rank order, claims ranked at or before an elected one plus payloads never exceed the cap, so the cap holds without the audit |
| `UploadProtocol.SnapshotFillsFreeSlots` | src/attachments/resolver.ts:315-323 | the claims one snapshot admits are exactly as many as fit |
| `UploadProtocol.ElectionAloneCanOverbook` | src/attachments/resolver.ts:339-342 | a concrete run in which claims out of rank order put two payloads over a cap of one |
| `UploadsDirectory.ScanIsExact` | src/attachments/resolver.ts:204-218 | the scan splits a directory into exactly its claims and payloads |
| `UploadsDirectory.ElectionMatchesProtocol` | src/attachments/resolver.ts:315-318 | the code's free-slot and rank test is the protocol's admission |
| `UploadsDirectory.UploadsDir.CleanupAbandonedUploadClaims` | src/attachments/resolver.ts:241-277 | the loop removes exactly the abandoned claims and succeeds, or stops with a 500 at the first it cannot unlink, having removed exactly those listed before it; a failed scan removes nothing |
| `UploadsDirectory.CleanedExactly` | src/attachments/resolver.ts:241-277 | a cleanup with nothing in its way takes exactly this process's own claims, claims over 30 seconds old of processes that are gone, and legacy markers that old that name no living process |
| `UploadsDirectory.UploadsDir.AuditCommit` | src/attachments/resolver.ts:343-353 | the audit keeps the payload exactly when its scan succeeds and the count fits the cap; over the cap it removes it with a 507, or with a 500 leaves the directory as it is when the unlink fails |
| `UploadsDirectory.UploadsDir.MaterializeUpload` | src/attachments/resolver.ts:285-355 | success leaves the payload within the cap and no claim; a refusal leaves the claim only if its unlink or write failed, and the payload only if the audit scan or its unlink failed; alone, outcome and directory are determined by which calls fail, and the audit sheds nothing |
| `UploadsDirectory.AloneWithoutFaults` | src/attachments/resolver.ts:285-355 | with nothing failing, an undisturbed upload succeeds exactly when the election admits its claim, adds just its payload, and otherwise leaves the cleaned directory as it was |
| `PublicationDisk.TargetLinkCount` | src/artifacts/context.ts:237-249 | a published inode has two links exactly while its winner's temporary remains |
| `PublicationDisk.LinkGuarantees` | src/artifacts/context.ts:299-312 | linking a recorded temporary keeps the disk sound and takes nothing from any other process |
| `PublicationSafety.StepKeepsWorld` | src/artifacts/context.ts:183-319 | every single file-system call of any process keeps the invariant |
| `PublicationSafety.EveryRunIsSafe` | src/artifacts/context.ts:183-319 | every reachable disk and process state satisfies it |
| `PublicationSafety.PublishedBytesNeverChange` | src/artifacts/context.ts:279-281 | once visible, a target shows the same bytes for ever |
| `PublicationSafety.HardLinksAreAccountedFor` | src/artifacts/context.ts:181-221 | a target has one link, or exactly one temporary shares its inode and that temporary's matching record is still there |
| `PublicationSafety.ReadersAreNeverRefused` | src/artifacts/context.ts:232-270 | in no interleaving does a reader refuse a published file, and what it returns is what the file shows |
| `PublicationSafety.ProvenanceBeforeContent` | src/artifacts/context.ts:490-493 | a visible payload always has a visible receipt whose digest is that payload's |
| `PublicationSafety.WritersEndOnlyTwoWays` | src/artifacts/context.ts:470-495 | a writer ends with its own pair visible or refused because other bytes are there; never for a missing receipt |
| `PublicationSafety.ForeignReceiptStopsWriter` | src/artifacts/context.ts:484-493 | a writer whose receipt path shows other bytes never reaches its payload |
| `PublicationSafety.ProcessesCanAlwaysAdvance` | src/artifacts/context.ts:183-319 | in every reachable state every process has a next call it can make; none waits for another |
| `PublicationProgress.EveryCallLowersRank` | src/artifacts/context.ts:183-319 | whatever the disk holds, each call of an unfinished reader, publisher or writer lowers its own lexicographic rank |
| `PublicationProgress.EveryProcessEnds` | src/artifacts/context.ts:183-319 | in no interleaving, however long and whoever crashes, does a process that keeps getting calls go on for ever |
| `PublicationProgress.IdenticalWritersNeverFail` | src/artifacts/context.ts:470-495 | where every writer of a name writes one identical artifact and nothing else was there, no writer of it ever fails, in any interleaving with crashes and retries |
| `SoloReading.SoloReadIsExact` | src/artifacts/context.ts:183-270 | on any disk, a reader of the protocol that nobody disturbs ends, call by call, with exactly what one uninterrupted read accepts |
| `ArtifactStore.Store.StagingLinks` | src/artifacts/context.ts:183-221 | the loop returns exactly the recorded links of the target's inode, or refuses when some record does not match |
| `ArtifactStore.Store.ReadRegular` | src/artifacts/context.ts:232-270 | on any disk a read returns the bytes if and only if no other published path shares the inode and every staging file that does has a complete record of this path, this inode and these bytes; a mismatching record and a foreign name are refused as such |
| `ArtifactStore.CountingNames` | src/artifacts/context.ts:237-245 | the link count exceeds the recorded links by more than the path itself exactly when another path or an unrecorded staging file shares the inode |
| `ArtifactStore.Store.SameBytes` | src/artifacts/context.ts:272-277 | absent, equal or different, told apart exactly |
| `ArtifactStore.Store.SweepStaging` | src/artifacts/context.ts:285-290 | finishing a publication removes exactly its temporaries and records |
| `ArtifactStore.Store.Publish` | src/artifacts/context.ts:281-319 | an uninterrupted publish leaves the bytes visible with one link, or changes nothing when other bytes are there |
| `ArtifactStore.Store.Write` | src/artifacts/context.ts:470-495 | a write succeeds if and only if nothing conflicting is there and no payload lacks its receipt; success completes the pair, refusal changes nothing |
| `ArtifactStore.RetryIsRefusedOnlyByAnotherReceipt` | src/artifacts/context.ts:279-280 | after any interrupted run an identical retry succeeds if and only if no other receipt holds the path |
| `NpmrcScan.RedactNpmrcAuth` | src/redaction.ts:97-119 | the one-pass loop equals the backward search at every key and looks at no more than twice the text's length in characters |
| `NpmrcScan.NoKeyInsideKey` | src/redaction.ts:103-104 | no key begins inside another, so the ordered matches are all there are |
| `NpmrcScan.RedactionIsIdempotent` | src/redaction.ts:92-96 | redacting what is already redacted changes nothing |
| `NpmrcScan.NaiveIsMask` | src/redaction.ts:92-96 | the backward search and a forward reading of the rest of the text mask alike |
| `NpmrcKeys.KeysAreSpelled` | src/redaction.ts:89 | a key is exactly `:_authToken`, `:_auth` or `:_password`, an `=`, and all the white space on either side of it, and is as long as that |
| `ReceiptPages.Page` | src/board/server.ts:266-299 | a page holds exactly the closed receipts between its offset and its next offset; a full page ends at its last receipt, any other at the table's end |
| `ReceiptPages.QueryIsTaken` | src/board/server.ts:266-272 | a limit of 1 to 100 and an offset from 0 on are taken as asked; a larger limit is 100, a missing or bad one 30, a bad offset 0 |
| `ReceiptPages.FollowAll` | src/board/server.ts:289-299 | following the cursor ends and yields every closed receipt once, in order, in as many pages as they fill and one more |

## Left out

- JSON text, UTF-8 and number rounding: text is one character per byte, JSON printing and parsing are parameters; a JSON number is an integer or a real, so infinities and `-0` are not modelled.
- Control frames (`auth_ok`, `context`, `control_result`, `context_event`, `ping`) are validated but carry no data, because they are never logged.
- `parseClientFrame` and the socket server around the log are not modelled.
- Rotation calls that fail, and a crash between two of them: the source treats the first as best effort and does not recover from the second; what such a directory loads as is `FrameTheorems.MissingSlotOneIsRefused`.
- An append whose write fails, and a repair interrupted before its rename: both leave file and counter as they were.
- FrameTheorems.CrashAndReload: needs twice the longest line to fit `maxBytes`, `keep` of at least 1 and a safe counter, because the code does not hold without them.
- FrameRetention.SettledStaysSettled: is about a log at rest between appends; what a boot after a crash closes is `FrameTheorems.BootSettles`.
- Log warnings and message texts everywhere; a refusal keeps its kind and the data callers act on.
- The ledger's storage and the limits of its chain-wide reads (500 armed records of a chain, 200 of a digest): chains are taken to stay under them.
- Digests: sha256 identities are injective tuples, and a digest of contents is the contents.
- Request parsing and its size bounds in `types.ts`, and `parseBriefingReviewBlock`.
- The texts and job lists of notifications, a notification centre that refuses a post, the evidence a settlement cites, and the board's counts.
- A lens job's row is what `reviewedBriefing` finds between its markers; the rest of the row is not modelled, and a missing row and an unmarked one share the error code they share in the source; a dispatch that throws is taken to have made no row.
- Upload claim names are parsed into stamp, owner and name once; reuse of process ids and the age of a legacy marker's file are inputs; other processes do not act during one cleanup, which the protocol models call by call.
- UploadsDirectory.UploadsDir.Elsewhere: stands for any change other processes make between two calls; it may remove this process's claim or payload, keeps names unique and creates nothing under its names.
- "Exactly one racer succeeds" when two claims tie: two audits may both shed; only the cap is promised.
- File modes, symlinks, path spelling, directory creation and Git checks around publication.
- ArtifactStore.Store.Publish: is one uninterrupted call; losing the race for the link is in `PublicationProtocol`.
- `hasOperational` in the preview context, which may see a half-published pair by design.
- Lane binding in `src/bmad/runtime.ts` and rotation in `src/logger.ts` repeat the publication and rotation cores.
- The other expressions of `src/redaction.ts` rest on the regular-expression engine; for the `.npmrc` scan the search for the next key is a function, and its own cost is not counted.
- Receipts are read from a fixed table; rows that arrive while a client pages are not modelled.
- Configuration, command lines, wiring, timers and process control.
