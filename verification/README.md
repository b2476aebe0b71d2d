# VIRP: a verified model of its evidence path

VIRP turns what devices and cameras said into signed records on an append-only chain, and lets a
verifier say later exactly what those records prove. This project models the parts where that promise
is hardest to keep, in Dafny, and proves it over every run, every input or every reachable state:

* **Camera evidence, end to end** (`CameraRecords`, `CaptureHost`, `CaptureRun`, `SpoolRelay`, `Audit`,
  `Coverage`, `EvidencePipeline`). The capture host, the spool relay and the auditor are run together,
  with the process dying before or after any durable write. `Lifetime` and `RelayLifetime` are the
  whole-run theorems of the two ends, `CaptureToVerdict` joins them to the audit and the coverage grade.
* **Retention** (`RetentionRecord`, `RetentionPlan`, `RetentionRun`, `RetentionHistory`,
  `RetentionPipeline`). Nothing is deleted before a record declaring it was delivered, an interrupted pass
  is finished unchanged, files and bytes are conserved, and a calm pass finishes exactly when every record
  it owes can be delivered. `RetentionToChain` joins a capture host's passes to the relay,
  `NodeRetentionToChain` those of the node's own host to its chain: what was removed is declared there.
* **The chain** (`ChainCanonical`, `ChainLog`, `ChainWitness`) and **the replay store** (`SeqStore`). A session that
  verifies is a committed prefix and nothing else; the bounded, evicting store refines an unbounded one.
* **Config drift** (`FrrText`, `FrrRevert`, `RevertCommand`, `Ingress`). The generated command list,
  read back out of its packed command and run on a model of the device shell, restores the baseline.
* **The Zammad driver** (`ZammadBody`, `ZammadCommand`, `JsonText`, `ZammadArticle`, `ZammadRoute`).
  One spelling per request, no way out of the JSON template, and a tight length bound on GREEN paths.
* **MP4 durations** (`Mp4`) and **claim verification** (`ClaimVerify`).

`Prelude`, `Json`, `Numerals` and `Template` hold what these share.

## How the code is modelled

State the source updates in place is a class (`CaptureRun.Host`, `SpoolRelay.Relay`, `RetentionRun.Host`,
`SeqStore.Store`, `ChainLog.Chain`); a loop is a loop with invariants, proved against a function or a
property of its input. Process death is a nondeterministic return before each durable write; a `calm`
flag switches it off so that progress can be stated beside safety. Digests are ideal: in the camera
modules a digest is its preimage, in the chain any injective printing that holds no double quote. The
HMAC under the chain key is an arbitrary function, and "not forged" means that an authenticated head text
found in a copy is one the node itself produced. Times are integer nanoseconds.

## Where a promise does not hold as stated

Each of these has a counterexample, and unless the line says otherwise the exact condition under which
the promise holds.

* `build_revert_command` promises to raise on anything the daemon's separator guard refuses; angle
  brackets pass it. A packed command passes the guard exactly when no argument holds `<` or `>`
  (`GuardAcceptsExactlyUnredirected`, `RedirectSlipsThrough`).
* An append reports success for a session name longer than its 63-byte field, but stores the row under
  the clipped name and the head under the full one, so that session never verifies
  (`LongNameNeverStands`, `LongNameExample`, `OwnSessionStandsExactlyWhenFounded`).
* A chunk record is said to fit the artifact field under an ASCII camera id of 64 characters. Whatever
  the removals, with a byte total in 64 bits, it fits exactly when the id prints in at most 188
  characters (`CameraFitsExactly`): 64 printable characters always do, 64 control characters print in
  384 (`PrintableAlwaysFits`, `ControlCameraOverruns`).
* Retention artifact ids are promised unique per chunk; within a pass they collide exactly when two job
  tokens name one camera (`IdentitiesCollideExactly`, `TwoTokensOneCamera`). Spool jobs carry the same
  three parts in their names. The spool keeps every shipment exactly when no two put different bodies
  under one name (`SpoolKeepsExactly`); on a capture host two jobs under one camera lose a record whose
  files are already gone (`OneRecordIsLost`). On the node's own host nothing is lost
  (`NodeRetentionToChain`).
* A retention pass is to remove what is old, and camera ids that cannot stand in a spool file name are said
  to be refused at configuration time. The retention command does not refuse them; delivery does, after
  the journal is written, so that pass and every later one stop there (`StaysBlocked`). A
  fresh pass can deliver all it plans exactly when every old file's job has a usable id
  (`PassFinishesExactly`); under a configured id such as `lobby cam` nothing is ever declared or removed
  (`RetentionLife`, `SpaceIsRefused`).
* What classifies GREEN is to be issuable. A GREEN path passes the daemon's request boundary exactly when
  it has at most one query pair, so the longest that can arrive has 84 bytes, not 110
  (`GreenArrivesExactly`, `LongestArrival`).
* Running the revert commands restores the baseline under conditions on the change alone. This is one
  way only: each of the seven clauses has a counterexample, but some changes that break one are restored
  all the same (`RevertRestoresBaseline` and the lemmas ending in `Fails`).
* Coverage is never graded unexplained on an honest, clean audit exactly when every declared policy
  tolerates a two-second hole (`CleanAuditIsNeverUnexplained`, `TighterPolicyCanBeUnexplained`).
* Adding evidence to a claim lowers its rank exactly when it is the first evidence and it passes
  (`AddingEvidenceLowersRankExactly`, `FirstReferenceLowersRank`); an unsigned collection status lowers
  the rank exactly when it hides a contradiction (`StatusLowersRankExactly`, `PartialHidesContradiction`).
* The relay takes a record for attested that is not on the chain exactly when the chain database cannot
  be read and a stale sidecar is there; it appends one that is there exactly when the database cannot be
  read and the sidecar is missing (`RouteErrsExactlyWhenUnreadable`).

The Zammad header describes ids and page values as plain digit runs; the code also refuses leading zeros,
and the model follows the code.

## Model

| member | source | states |
|---|---|---|
| CameraRecords.ProducerGapsAreValid | camera/virp_camera.py:743-793 | every gap the producer writes is an object of exactly two keys citing the immediate predecessor, which the shared validity rule accepts |
| CameraRecords.PredecessorCitationSurvivesFiltering | camera/virp_camera.py:743-793 | a gap citing its predecessor stays valid whichever earlier record the auditor happens to hold |
| CameraRecords.BuiltBodyFollows | camera/virp_camera.py:1289-1361 | a body built from the resume state extends an honest stream: next number, previous digest, holes over 2 s declared |
| CaptureHost.ResumeFindsLastRecord | camera/virp_camera.py:598-650 | whatever a crash left between state.json and the checkpoint, the resume point is the last record handed off |
| CaptureHost.IndexRecognises | camera/virp_camera.py:587-619 | the checkpoint recognises a closed segment exactly when it was handed off |
| CaptureHost.FirstWaitingIsOldest | camera/virp_camera.py:3035-3120 | in name order or time order, the first waiting segment is the oldest |
| CaptureHost.ShipKeeps | camera/virp_camera.py:2819-2953 | landing the next record on the spool keeps every recovery invariant |
| CaptureHost.CheckpointKeeps | camera/virp_camera.py:622-630 | checkpointing a shipped record keeps every recovery invariant, one record further on |
| CaptureHost.SaveStateKeeps | camera/virp_camera.py:531-545 | saving the cursor keeps every recovery invariant |
| CaptureHost.UnlinkKeeps | camera/virp_camera.py:3178-3237 | removing a file keeps every recovery invariant when it is no waiting segment |
| CaptureHost.CaptureKeeps | camera/virp_camera.py:3140-3267 | a segment closing between any two steps keeps every recovery invariant |
| CaptureRun.Host.constructor | camera/virp_camera.py:3123-3138 | a fresh host satisfies the invariants with nothing handed off |
| CaptureRun.Host.Ship | camera/virp_camera.py:2723-2815 | a shipment lands whole or not at all; a reported success landed |
| CaptureRun.Host.RecordHandoff | camera/virp_camera.py:2930-2953 | after shipping, the record enters the checkpoint and then the cursor, dying anywhere between |
| CaptureRun.Host.ProcessLiveSegment | camera/virp_camera.py:2819-2953 | the segment is attested as exactly the built next record, refused leaving no handoff, or died in a recoverable state; without faults it is attested exactly when its record fits |
| CaptureRun.Host.StagedPair | camera/virp_camera.py:3013-3032 | finds the highest-numbered staged body for exactly this content and capture end, or there is none |
| CaptureRun.Host.Reship | camera/virp_camera.py:3060-3100 | a staged pair is handed off under the body it was staged with |
| CaptureRun.Host.SettleWaiting | camera/virp_camera.py:3035-3120 | one leftover segment becomes exactly one further record; without faults only a record too long for the field stops it |
| CaptureRun.Host.ReconcileWorkdir | camera/virp_camera.py:3035-3120 | when it returns ready, every closed segment has its record; without faults only a record too long for the field keeps it from being ready |
| CaptureRun.Host.Poll | camera/virp_camera.py:3178-3237 | a poll keeps the invariants; one that completes has handed off every closed segment, and without faults the poll after ffmpeg has exited completes unless the next record is too long |
| CaptureRun.Host.RunLive | camera/virp_camera.py:3140-3267 | a whole live session keeps the invariants; without faults a session that ends with ffmpeg leaves no closed segment without its record, or stops at one whose record is too long |
| CaptureRun.SpoolHoldsOneStream | camera/virp_camera.py:2819-2953 | in every recoverable state the spool holds exactly one honest stream over the first closed segments |
| CaptureRun.Lifetime | camera/virp_camera.py:3035-3267 | over any number of sessions, crashes and captures, the spool is one honest stream, one record per segment in order, no segment is lost, and a final calm session attests them all, those it captured included, or stops at a segment whose next record is too long |
| CaptureRun.DeliveredBodies | camera/virp_camera.py:2819-3120 | delivered bodies never disagree: one body per number, no gap in numbering, each citing its predecessor, one number per segment |
| SpoolRelay.RouteErrsExactlyWhenUnreadable | camera/virp_camera.py:3325-3447 | the append decision is wrong exactly when the chain database cannot be read and the sidecar is stale or missing |
| SpoolRelay.Relay.Query | camera/virp_camera.py:3325-3353 | the chain answers truthfully or not at all |
| SpoolRelay.Relay.AppendAndReceipt | camera/virp_camera.py:3465-3485 | an append lands at most once, also when the error is raised after commit |
| SpoolRelay.Relay.SubmitOne | camera/virp_camera.py:3356-3485 | at most one append, none when the body is already on a readable chain; true only if it is there; unsound pairs are refused |
| SpoolRelay.Relay.SubmitRecordOnly | camera/virp_camera.py:3729-3810 | the same for a record that travels alone, refused unless the retention validator passes it |
| SpoolRelay.Relay.RelayJob | camera/virp_camera.py:3507-3566 | one job is relayed without duplicating anything or losing another job |
| SpoolRelay.Relay.Pass | camera/virp_camera.py:3507-3566 | a pass keeps the chain free of duplicates; a calm one lands every sound delivered job |
| SpoolRelay.RelayLifetime | camera/virp_camera.py:3507-3566 | over any run of redeliveries, crashes, disturbed sidecars and late errors: no body twice, nothing invented, a job leaves the spool only once on the chain, and a calm end lands every sound job |
| Audit.SortIsSorted | camera/virp_camera.py:2001-2004 | the audit order is a sorted permutation by camera and number |
| Audit.SortIsStable | camera/virp_camera.py:2001-2004 | records that share camera and number keep the order they were read in |
| Audit.AuditContinuity | camera/virp_camera.py:2001-2030 | the dictionary loop reports exactly the failures of the walk |
| Audit.CamerasAreIndependent | camera/virp_camera.py:2001-2030 | a multi-camera audit charges each camera exactly what its own audit would |
| Audit.DeletionIsDetectedExactly | camera/virp_camera.py:2001-2030 | on any sub-collection of an honest stream, in any order, a record is charged exactly when it is not number 0, its predecessor is missing and it carries no gap |
| Audit.CompleteStreamIsClean | camera/virp_camera.py:2001-2030 | a complete stream passes with no failure, in whatever order its entries were appended |
| Coverage.GradeCamera | camera/virp_camera.py:2171-2294 | one camera's report: verdict, outages, overlaps and totals as specified over its ordered records |
| Coverage.GradeBoundaries | camera/virp_camera.py:2239-2280 | the boundary loop lists exactly the outages and overlaps and the worst class among them |
| Coverage.GradeCoverage | camera/virp_camera.py:2171-2294 | every camera present is reported, from its own records only |
| Coverage.EveryInstantIsAccountedFor | camera/virp_camera.py:2239-2280 | with windows in no assumed order, every instant of the span is within the jitter of a recorded window or inside a listed outage |
| Coverage.OutagesAreReal | camera/virp_camera.py:2239-2280 | every listed outage is the hole between two neighbouring records |
| Coverage.VerdictMeaning | camera/virp_camera.py:2239-2294 | CONTINUOUS leaves no instant uncovered; without UNEXPLAINED every hole is tolerated or validly declared |
| Coverage.CleanAuditIsNeverUnexplained | camera/virp_camera.py:2171-2294 | a clean audit of an honest stream whose policies tolerate 2 s is never UNEXPLAINED |
| Coverage.TighterPolicyCanBeUnexplained | camera/virp_camera.py:2239-2280 | for every tighter policy there is an honest, clean stream graded UNEXPLAINED |
| EvidencePipeline.CaptureToVerdict | camera/virp_camera.py:1878-2294 | capture, relay and audit run together: once the spool is drained the audit is clean, every record is there, and tolerant policies grade no unexplained outage |
| RetentionRecord.KindsFollowSuffixes | camera/virp_camera.py:3618-3625 | each kind means exactly its own suffix, although the suffixes are tried in order |
| RetentionRecord.RetentionDefect | camera/virp_camera.py:3628-3683 | a body is free of defects exactly when it meets the whole schema, counts and byte totals included |
| RetentionRecord.BuiltBodyIsWellFormed | camera/virp_camera.py:3686-3699 | a built body passes that check exactly when the caller's tier, policy, time, camera and items are good |
| RetentionRecord.RetentionChunks | camera/virp_camera.py:3830-3848 | chunks concatenate to the input in order, are non-empty, within the limit, and closed only when the next item would overrun |
| RetentionRecord.BodyLength | camera/virp_camera.py:322-324 | the exact length of the canonical signed body, field by field |
| RetentionRecord.ShortCameraFits | camera/virp_camera.py:3927-3939 | whatever the splitter produces fits when the camera id prints in at most 186 characters, even if the byte total exceeds 64 bits |
| RetentionRecord.CameraFitsExactly | camera/virp_camera.py:3830-3939 | every record the splitter can produce under a camera id, its byte total in 64 bits, is under 8192 bytes exactly when the id prints in at most 188 characters |
| RetentionRecord.PrintableAlwaysFits | camera/virp_camera.py:3830-3848 | a camera id of at most 64 printable ASCII characters always fits |
| RetentionRecord.ControlCameraOverruns | camera/virp_camera.py:3830-3939 | a well-formed record under 64 ASCII control characters that the splitter allows and the field does not |
| RetentionPlan.PlanPass | camera/virp_camera.py:3871-3912 | every listed old file is digested, classified and planned as often as it is listed, in chunks numbered per token; two chunks share an identity exactly when two of the files' tokens name one camera |
| RetentionPlan.GroupingConserves | camera/virp_camera.py:3874-3890 | grouping by token loses and repeats no name |
| RetentionPlan.IdentitiesCollideExactly | camera/virp_camera.py:3709-3714 | two records of a pass share an artifact id exactly when two tokens name one camera |
| RetentionPlan.TwoTokensOneCamera | camera/virp_camera.py:3709-3714 | two files of different jobs under one configured camera id meet that condition |
| RetentionPlan.ClaimIsSomeones | camera/virp_camera.py:3813-3827 | a camera found for a job is the non-empty claim of a body file of that very job |
| RetentionRun.Host.HandOver | camera/virp_camera.py:4261-4297 | shipped, possibly landing although reported lost; on the node's own host submitted, counted only if on the chain, appended at most once |
| RetentionRun.Host.SettleHead | camera/virp_camera.py:3922-3960 | one chunk: refused exactly for its size or its camera id before anything is sent, else delivered, then unlinked, then dropped from the journal, dying anywhere between; a record no delivery takes changes nothing |
| RetentionRun.Host.UnlinkFiles | camera/virp_camera.py:3946-3951 | exactly the chunk's files go, those already gone are skipped, and each was declared first |
| RetentionRun.Host.Drain | camera/virp_camera.py:3921-3963 | the journal's records are delivered once each and in order; stopped short, only the head can be redelivered; without faults it finishes exactly when every record owed can be delivered |
| RetentionRun.Host.BeginPass | camera/virp_camera.py:3871-3919 | a fresh journal holds exactly the old files, each as often as listed, with their bytes conserved, or there is nothing to do |
| RetentionRun.Host.RunRetention | camera/virp_camera.py:3851-3963 | a leftover journal is finished and nothing new scanned; a finished fresh pass delivers each planned record once and removes exactly the old files; every file that goes has its unlink on record; without faults it finishes exactly when every record it owes can be delivered, else it and every later pass stop there |
| RetentionRun.HeadIsDeclared | camera/virp_camera.py:3940-3951 | a file about to be unlinked is listed, with its digest, kind and length, in the record just delivered |
| RetentionHistory.PlannedRecordIsSound | camera/virp_camera.py:3922-3939 | under a sound configuration with 64-bit lengths and times, every planned record whose camera id can name a spool job passes the relay's validator and is never refused for size |
| RetentionHistory.PassFinishesExactly | camera/virp_camera.py:3886-3939 | all that a fresh pass plans can be delivered exactly when every old file's job has a camera id a spool job can be named after |
| RetentionHistory.CameraMayBe | camera/virp_camera.py:3887-3889 | a job's camera is always the configured id, the claim of one of its bodies seen in that life, or its token |
| RetentionHistory.RetentionLife | camera/virp_camera.py:3851-3963 | over any passes, crashes and arriving files: every unlink was declared by an earlier delivery, deliveries are byte-identical per chunk, in order and without skips, no file vanishes unrecorded; a calm end leaves no old file or stands before a record no delivery takes; in an ordinary life nothing is refused; under an unusable configured id nothing is declared or removed |
| RetentionHistory.StaysBlocked | camera/virp_camera.py:3851-3945 | a record no delivery takes blocks every later pass: nothing is sent or removed again |
| RetentionHistory.SpaceIsRefused | camera/virp_camera.py:2978-2992 | an id with a space can name no spool job |
| RetentionHistory.TokenNamedLife | camera/virp_camera.py:3887-3889 | with neither a configured id nor claims, the assumptions about cameras are conditions on the file names alone |
| RetentionHistory.OrdinaryLivesExist | camera/virp_camera.py:4036-4060 | lives with several jobs that meet every assumption exist on either tier |
| RetentionPipeline.SpoolKeepsExactly | camera/virp_camera.py:4261-4271 | the spool keeps every shipment exactly when no two put different bodies under one job name |
| RetentionPipeline.NamesAreOwn | camera/virp_camera.py:4261-4271 | when the clock advances between passes and no plan collides, records under one job name are one record delivered again |
| RetentionPipeline.RetentionToChain | camera/virp_camera.py:3507-3963 | any life of a capture host's retention and any life of the relay: the chain holds only delivered records, none twice; in an ordinary life with an advancing clock in which no two jobs share a camera, once every shipment has arrived, each file is as it was or its digest, kind and length are on the chain, and no old file is left |
| RetentionPipeline.NodeRetentionToChain | camera/virp_camera.py:4284-4297 | on the node's own host, whatever the cameras, the clock and the faults: each file is as it was or declared on the chain, which holds only planned records, none twice |
| RetentionPipeline.OneRecordIsLost | camera/virp_camera.py:4261-4283 | two jobs' files under one camera id on a capture host: an undisturbed pass removes both, and no chain the relay can build declares one of them |
| ChainCanonical.CanonicalReadsBack | src/virp_chain.c:1570-1598 | the unescaped canonical text of an entry whose strings hold no quote is the text of no other entry at all |
| ChainCanonical.HeadTextReadsBack | src/virp_chain.c:1649-1662 | the same for the head text |
| ChainCanonical.KindsNeverCollide | src/virp_chain.c:1749-1757 | entry, head and milestone texts, authenticated under one key, are never equal |
| ChainCanonical.EntryAlwaysFits | src/virp_chain.c:2474-2513 | no entry within its field widths overflows the 2048-byte canonical buffer |
| ChainWitness.EveryLengthIsReached | src/virp_chain.c:1485-1492 | one node whose digest has no collisions commits sessions of every length a 63-bit sequence can number, and each verifies, so no result about the chain is vacuous |
| ChainLog.VerifyRange | src/virp_chain.c:3126-3525 | from any sequence to any other the row walk accepts exactly a complete, numbered, linked, rehashed and authenticated range whose predecessor exists |
| ChainLog.RangesJoin | src/virp_chain.c:3126-3525 | verifying a range piece by piece is verifying it whole, wherever it is cut |
| ChainLog.VerifySession | src/virp_chain.c:225-392 | a session is valid exactly when an authentic head commits to exactly such a range |
| ChainLog.Chain.Append | src/virp_chain.c:2342-2624 | entry and head land together with the next number and the last digest, or nothing does, and the log stays committed |
| ChainLog.ExtendKeeps | src/virp_chain.c:2456-2624 | an append keeps links, heads and the inventory of everything ever authenticated |
| ChainLog.AuthenticHeadWasCommitted | src/virp_chain.c:325-349 | a head text the node authenticated names a row it committed for that session |
| ChainLog.EqualDigestsEqualRows | src/virp_chain.c:3235-3275 | equal last digests force equal rows all the way back |
| ChainLog.VerifiedMeansCommittedPrefix | src/virp_chain.c:225-392 | whatever was done to a copy, if it verifies under an unforged head its rows are exactly the first rows the node committed for that session |
| ChainLog.EveryCommittedPrefixStands | src/virp_chain.c:225-392 | every earlier committed state, put back with its own head, verifies |
| ChainLog.OwnSessionStandsExactlyWhenFounded | src/virp_chain.c:2456-2495 | in the node's own database a session verifies exactly when its first row was written for that very name |
| ChainLog.LongNameNeverStands | src/virp_chain.c:2456-2495 | after an accepted append the session verifies exactly when its name fits 63 bytes and was not taken by a clipped one |
| ChainWitness.LongNameExample | src/virp_chain.c:2456-2495 | under a digest without collisions, an accepted append on an empty database whose session does not verify |
| ChainLog.ChainLife | src/virp_chain.c:2342-2624 | any run of submissions leaves a committed log, in which every answered session verifies when names fit |
| SeqStore.Store.constructor | src/virp_seqstore.c:41-75 | loading restores exactly the first 128 persisted marks |
| SeqStore.Store.FindMark | src/virp_seqstore.c:154-185 | finds the mark of a session and node, or there is none |
| SeqStore.Store.PickVictim | src/virp_seqstore.c:186-212 | the least recently touched mark of another session, or every mark is this session's |
| SeqStore.Store.Accept | src/virp_seqstore.c:154-240 | each verdict in terms of the marks: replay exactly at or below the mark, exhausted exactly when full of this session, accepted raises one mark, refusal changes nothing |
| SeqStore.VerifierLife | include/virp_seqstore.h:29-74 | over any offers, restarts, evictions and binds to fresh sessions, every verdict is the unbounded store's except fail-closed refusals on a full table or a failed persist |
| SeqStore.AcceptedStrictlyIncreases | include/virp_seqstore.h:29-74 | accepted numbers of a session and node strictly increase, so no triple is accepted twice |
| Ingress.CheckSeparators | src/virp_message.c:995-1036 | the byte loop accepts exactly the commands with no control byte, separator, redirection or substitution |
| Ingress.GuardOfSum | src/virp_message.c:995-1036 | the guard on a concatenation is the guard on its parts unless a dollar sign ends the first |
| FrrText.NormalizeConfig | autopilot/virp_config_backup.py:156-165 | the loop keeps the trimmed, non-empty, non-noise lines in order |
| FrrText.NormalizingTwiceIsOnce | autopilot/virp_config_backup.py:156-165 | normalizing is idempotent |
| FrrText.NormalizingKeepsTheParse | autopilot/virp_config_backup.py:172-194 | normalizing first changes nothing that is read |
| FrrText.BlockReadsBack | autopilot/virp_config_backup.py:179-193 | the printed lines of a block read back as that block, wherever it stands |
| FrrText.ParseFrr | autopilot/virp_config_backup.py:172-194 | the reader's loop, stopping at the first unrevertable line |
| FrrText.ParseInvertsPrint | autopilot/virp_config_backup.py:172-194 | the reader inverts the depth-one printer on every printable configuration |
| FrrText.EverythingReadIsPrintable | autopilot/virp_config_backup.py:172-194 | whatever is read is printable, and prints and reads back to itself unless a header is a noise line |
| FrrRevert.FlipTwice | autopilot/virp_config_backup.py:197-200 | flipping twice is the identity exactly on lines that are not doubly negated |
| FrrRevert.RevertArgs | autopilot/virp_config_backup.py:203-230 | the loops build the undo commands of the current blocks, then the redo commands of the lost ones |
| FrrRevert.UndoSettles | autopilot/virp_config_backup.py:209-222 | run on a device that has the block, its commands set that block to the baseline, or remove it, and touch nothing else |
| FrrRevert.RedoSettles | autopilot/virp_config_backup.py:223-229 | run on a device without the block, its commands restore exactly the baseline's lines and touch nothing else |
| FrrRevert.EmptyExactlyWhenEqual | autopilot/virp_config_backup.py:203-230 | no command is proposed exactly when the configurations have the same headers and line sets |
| FrrRevert.RevertRestoresBaseline | autopilot/virp_config_backup.py:203-230 | when the lines and headers that change are clean, every command is accepted on the current configuration and the device ends with the baseline |
| FrrRevert.RepeatedLineFails | autopilot/virp_config_backup.py:216-221 | an added line twice in a current block defeats the revert |
| FrrRevert.NegatedPairFails | autopilot/virp_config_backup.py:216-221 | a line to restore beside its negation in the baseline defeats the revert |
| FrrRevert.DoubleNegationFails | autopilot/virp_config_backup.py:197-221 | a doubly negated added line defeats the revert |
| FrrRevert.NegatedHeaderFails | autopilot/virp_config_backup.py:209-222 | an edited current header beside its negation defeats the revert |
| FrrRevert.NegatedBaselineHeaderFails | autopilot/virp_config_backup.py:223-229 | a lost baseline header beside its negation defeats the revert |
| FrrRevert.LostPairFails | autopilot/virp_config_backup.py:223-229 | a lost block with a line beside its negation defeats the revert |
| FrrRevert.DoublyNegatedHeaderFails | autopilot/virp_config_backup.py:197-213 | a doubly negated new header defeats the revert |
| RevertCommand.BuildRevertCommand | autopilot/virp_config_backup.py:233-250 | refused exactly when an argument is illegal, too long only past 900 characters, else one packed command |
| RevertCommand.PackedUnpacks | autopilot/virp_config_backup.py:244-245 | splitting a packed command on its quotes gives back "configure terminal" and the arguments |
| RevertCommand.GuardAcceptsExactlyUnredirected | autopilot/virp_config_backup.py:105-109 | a packed command passes the daemon's guard exactly when no argument holds an angle bracket |
| RevertCommand.RedirectSlipsThrough | autopilot/virp_config_backup.py:233-250 | a legal argument whose packed command the guard refuses |
| RevertCommand.ProposeRevert | autopilot/virp_config_backup.py:203-250 | from two texts to one command that, split on its quotes and run, restores the baseline, and is empty exactly when nothing drifted |
| ZammadBody.DecodeBody | src/drivers/driver_zammad.c:457-531 | the buffer-filling decoder gives the specified bytes or the first offending byte's reason, within the buffer |
| ZammadBody.DecodeInvertsEncode | src/drivers/driver_zammad.c:457-531 | decoding an encoded legal body gives it back |
| ZammadBody.EncodeInvertsDecode | src/drivers/driver_zammad.c:476-508 | whatever decodes is the encoding of what it decodes to, and that is a legal body |
| ZammadBody.EncodingPassesTheGuard | src/drivers/driver_zammad.c:438-455 | no encoded byte, nor any two side by side, trips the ingress guard; at most threefold length |
| ZammadCommand.CheckBytes | src/drivers/driver_zammad.c:602-635 | the byte guards pass exactly without control bytes and without space runs before the body |
| ZammadCommand.ParseCommand | src/drivers/driver_zammad.c:586-744 | accepts exactly the spellings of legal requests, and returns the request spelled; a command whose frame is right is refused with the reason of its first bad part |
| ZammadCommand.OneSpellingPerRequest | include/virp_driver_zammad.h:119-133 | two legal requests with one spelling are the same request |
| ZammadCommand.RenderPassesTheGuard | src/drivers/driver_zammad.c:438-455 | no command the driver accepts is refused at the ingress boundary |
| JsonText.MembersRead | src/drivers/driver_zammad.c:746-775 | members that need no escaping read back exactly, after section 7 of RFC 8259, and nothing else is read |
| ZammadArticle.ArticleReadsBack | src/drivers/driver_zammad.c:746-775 | whatever the approved body says, the posted object has its five members and its body reads back unchanged |
| ZammadRoute.QueryOk | src/drivers/driver_zammad.c:150-232 | the query loop accepts exactly one or more listed pairs with no name twice |
| ZammadRoute.RoutePath | src/drivers/driver_zammad.c:234-285 | the classifier says GREEN exactly for a listed row with an accepted query |
| ZammadRoute.RouterAcceptsExactlyTheGrammar | include/virp_driver_zammad.h:365-385 | GREEN is exactly the set of strings the grammar generates |
| ZammadRoute.GreenIsShort | include/virp_driver_zammad.h:54-92 | every GREEN path is at most 110 bytes and cannot truncate in the URL buffer |
| ZammadRoute.LongestGreenPath | include/virp_driver_zammad.h:54-92 | 110 bytes is reached |
| ZammadRoute.GreenArrivesExactly | src/virp_onode.c:2594-2612 | a GREEN path passes the request boundary exactly when it has at most one pair, and is then at most 84 bytes |
| ZammadRoute.LongestArrival | src/virp_onode.c:2594-2612 | 84 bytes is reached |
| Mp4.HeaderReadsBack | camera/virp_camera.py:442-453 | the header of a written box, in any of the three spellings of its size, reads back wherever it stands |
| Mp4.FindBox | camera/virp_camera.py:437-457 | the scan ends on every input with the first box of that type, nothing, or truncation |
| Mp4.Duration | camera/virp_camera.py:406-434 | every input gets a duration or one of four faults, and every file laid out as boxes gets its own header's duration |
| Mp4.ScanFinds | camera/virp_camera.py:437-457 | past any run of other boxes the scan finds the payload of the one asked for |
| Mp4.DurationInvertsTheWriter | camera/virp_camera.py:406-434 | for any surrounding boxes and any spelling of sizes the result is the header's duration over its timescale, versions 0 and 1 |
| ClaimVerify.UnsignedDataOnlyDowngrades | api/virp_verify.py:230-413 | an entry verifies with a value exactly when it does with its unsigned fields stripped and those fields agree |
| ClaimVerify.StatusLowersRankExactly | api/virp_verify.py:374-399 | the collection status lowers the rank exactly when it is not COMPLETE and an authentic, fresh, uncontested message says something other than expected |
| ClaimVerify.PartialHidesContradiction | api/virp_verify.py:374-399 | one entry whose status does |
| ClaimVerify.VerifyClaim | api/virp_verify.py:416-469 | the verdict is some evidence's and no evidence's is worse; none is UNVERIFIABLE, a bad schema SCHEMA_ERROR |
| ClaimVerify.VerifiedExactlyWhenAllPass | api/virp_verify.py:416-469 | a claim with evidence verifies exactly when every reference passes every stage and the assertion |
| ClaimVerify.ClaimVerifiesExactlyWhenBacked | api/virp_verify.py:230-469 | that is exactly when authentic, fresh, matching signed bytes say what every reference expects, no unsigned field disagrees and the assertion holds; and then it verifies on the signed bytes alone |
| ClaimVerify.AddingEvidenceLowersRankExactly | api/virp_verify.py:416-469 | adding evidence lowers the rank exactly when it is the first and passes |
| ClaimVerify.FirstReferenceLowersRank | api/virp_verify.py:416-469 | one reference that does |

## Left out

- ffmpeg, sftp, sockets, SQLite, Ed25519, SHA-256 and HMAC internals: abstract steps and ideal functions.
- Power loss of files written without fsync, torn checkpoint lines and torn JSON: a durable write happens whole or not at all.
- The quiescence gate and the `seen`, `handled` and `tried` sets of a live session: a poll takes any prefix of the waiting files in listing order, and capture happens between polls.
- File names are positions in their sort order; the wrong order of segment names past 999999 is not modelled.
- handoff.json, cited sidecar files, sensor signatures, sensor certificates and schema versions of a camera body.
- The replay path of the capture host, and "every restart is declared by a gap", which the source does not promise for leftovers.
- The order in which the relay and the retention planner visit their groups; any order is allowed.
- ZammadCommand.ParseCommand: for a command whose frame itself is wrong, which refusal it gets is not stated.
- RetentionPipeline.OneRecordIsLost: the relay is taken not to pass between the two shipments; one that does appends the first body in time.
- The staged copy of each delivered record in a capture host's outbox; where the outbox is the directory itself, the copy is one more arriving file.
- A job body that is JSON but no object, on which the camera lookup raises before anything is journaled; `claims` gives no camera for it.
- Retention deleting a staged pair the capture host still needs; the two directories are taken as distinct.
- Dry runs of retention, and its journal being edited by another process.
- RetentionRun.Host.RunRetention: other writers may add names but not touch pending ones, as the source assumes.
- The asymmetric signature tier, the keyless tier, artifact binding, intent grading, native epochs and federation idempotency of the chain.
- UTF-8 well-formedness of chain strings: characters are code points here, so ill-formed bytes cannot be written down.
- Session names beyond 236 bytes, where the genesis buffer itself is too small.
- ChainLog.VerifyRange: the keyed walk of hashes, links, numbers and HMACs; signatures, artifact binding and intent grading of each row are not modelled.
- ChainLog.VerifySession: likewise without artifact binding, intent grading, signature eras and the error detail.
- ChainLog.VerifiedMeansCommittedPrefix: a MAC computed for a transaction that then rolled back is taken never to be seen.
- The wrap-around of the 64-bit recency tick, corrupt store files and the memory-only mode of the replay store.
- SeqStore.VerifierLife: a session once left is not bound again, since session ids are fresh random values.
- FrrRevert.RevertRestoresBaseline: about the shell model of `Exec`, in which a command removes its negation if present, else asserts itself or enters its block, and the grammar tells top-level commands from block lines; its conditions are sufficient and each is needed for some change, not for every one.
- The byte length of a packed revert command with non-ASCII lines; the 900 limit counts characters, as the source does.
- Typed Zammad operations other than the one in the table, the per-device allowlist and the HTTP transport.
- Surrogate pairs and insignificant whitespace in the JSON reader; the printed template has neither.
- Rounding of the floating-point division in durations and coverage; exact rationals are used.
- Identifier resolution, extraction paths, assertion operators and schema validation of claims: parameters of the model.
- The approval flow, execution gate, worker pool, handshake, API server, broker and device registry.
