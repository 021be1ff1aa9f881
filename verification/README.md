# Verified model of the video platform's hard parts

A Dafny model of those parts of the repository in which interleaving workers, crashes, time or a layout of bytes make
it hard to see that the code is right, with proofs of what the code promises. `dafny verify dfyconfig.toml` checks
everything.

## What is modelled

**The Redis Streams consumer** (`StreamGroup`, `ConsumerProtocol`, `ConsumerProofs`, `ConsumerRuns`, `ConsumerAging`,
`ConsumerRecovery`, `ConsumerLoop`). One consumer group as undelivered messages and pending entries (owner, delivery
count, last delivery), under the commands the workers send; XCLAIM and a history read each count a delivery and restart
the idle time. Any number of sessions interleave one command at a time and may stop after any of them. The proofs cover
every run. `ConsumerLoop` is the code itself over a group that changes in place, shown to take the protocol's steps.

- The limit of five deliveries means that a message is *started* at most three times, and once more for each XCLAIM that
  took it when its five deliveries were already spent: every other retry spends one delivery on the claim and one on the
  history read. XCLAIM looks at the idle time only, so a worker that pauses between its scan and its claim can make such
  a claim; n of them make n + 3 starts (`ConsumerRuns.LateClaimsStartMore`). Where each XCLAIM follows its scan in less than
  IDLE_CLAIM_MS there is none, and three is the bound.
- The comment at `ai-worker/worker/consumer.py:91-93` says that entries that failed "age out and hit the
  MAX_DELIVERY_ATTEMPTS guard". Exactly when they do: a history read restarts the idle time of the first ten entries
  its session owns and of no others, and the next scan finds a failed entry, for claiming or for discarding, if and only
  if the scan lists it and no history read of its session reached it in the last IDLE_CLAIM_MS
  (`ConsumerAging.FoundExactlyWhenNotRead`). So one failed message in a worker that
  makes a pass every few seconds never ages out (`ConsumerRuns.FailedMessageNeverAgesOut`), while the eleventh of eleven
  does, in a worker that is up all the time (`ConsumerAging.EleventhAgesOut`); and so may any whose worker takes longer
  than IDLE_CLAIM_MS over another message.

**The Footage Review queue** (`FootageQueue`, `FootageAttempts`, `FootageContents`, `FootageTakeover`, `FootageWorker`).
The statements on a video's row; any number of workers and sweeps interleaving one transaction at a time, with takeovers
and crashes; and one attempt as code, with its batches, dictionaries and tables, each of
its statements shown to be the machine's next step. The status machine holds with takeovers.
What a READY video holds is proved for runs in which no sweep puts a video back in the queue under a worker that is still
at it. That condition is exact: such a sweep can end in a READY video that is not complete, and even in one with no
frames, if and only if attempts are left, at whatever stage the worker is (`FootageTakeover.TakeoverSpoilsIff`). A sweep
after the last attempt is harmless. The row is not touched while the playable copy is made, so a slow copy is enough.

**PNG and ICO files** (`Crc`, `Bytes`, `Png`, `Ico`). The table-driven CRC against the definition one bit at a time
(sections 3.4 and 15 of RFC 2083), the encoders, and readers that recover what was written. Compression is any function
with an inverse.

**Event clips** (`ClipRecorder`). The three shared maps under the atomic blocks of the two tasks, tied to the history of
what happened: which alerts become clips, and which frames each clip holds.

**Detections** (`BoxSuppression`, `BoxDecoding`, `Stretches`, `FightWindows`, `AbandonedTracker`). Greedy suppression
and decoding, event stretches, altercation windows, and the tracker of left objects. Decoding divides by the exact scale
although the frame was resized to whole pixels, so a box comes back exactly if and only if no axis needed rounding, and
otherwise to within half a pixel of the model's square. The opening text of
`ai-worker/worker/footage/fight.py:11` ("at least 2 of 3 consecutive seconds") would also flag a candidate, a miss and a
candidate; the code does not, and the model follows the code.

**Time-based state** (`BreachDedup`, `TimedLog`, `SettingsCache`, `AlertRules`, `RulesCache`, `EvidencePurge`,
`PatrolScore`, `PatrolLinking`, `WakeUp`). Breach de-duplication over a Redis key that expires, two caches shared by
concurrent callers, the crash-safe purge, the compliance pass, and the intelligence runner's wake-up loop.

- A breach is new exactly when the cooldown of the *last* call is over. "When no earlier call's cooldown still covers it"
  says the same if and only if no call's cooldown ends before an earlier one's: EXPIRE can also shorten the window.
- With replicas in between, each episode is answered "new" once if and only if no call that had found the key gone sets
  it over a key another call had set meanwhile.
- What the caches answer comes from a fetch some caller really stored, and the bounds on its age are those of that
  fetch. For a setting with neither row nor fallback, one caller's default answers the next caller, even one whose own
  answer would be a KeyError.
- No uniqueness is enforced on the session an occurrence is resolved with: a resolution by hand keeps links one to one if
  and only if the session it names stands at no other occurrence. The pass itself never adds a second link.
- A purge in which nothing breaks removes exactly the rows that have expired without a hold, but for those whose file is
  there and cannot be removed; a crash in an earlier one only left rows without files, and those go too.
- A patrol's score reaches 100 although a checkpoint was missed when the route has 2000 checkpoints or more.
- An occurrence can become "late" only through a session that begins after the pass's own clock: any occurrence whose
  window is over has been marked missed in the same transaction.
- `AlertRule` does not look up the incident's severity, so "well-formed" says nothing of it.

Time and coordinates are integers or reals. Where an external call can fail, the code of the model chooses freely
whether it does.

## Model

| member | source | states |
|---|---|---|
| `StreamGroup.FirstIdsAreFirst` | ai-worker/worker/consumer.py:47 | a pending or history listing is in id order and leaves an entry out only when it is full of smaller ones |
| `ConsumerProtocol.StaleIds` | ai-worker/worker/consumer.py:50-55 | of the listed entries, exactly those idle for too long with deliveries left |
| `ConsumerProtocol.DeadIds` | ai-worker/worker/consumer.py:50-53 | of the listed entries, exactly those idle for too long with their deliveries spent |
| `ConsumerProofs.StepKeepsInv` | ai-worker/worker/consumer.py:42-64 | every command of every worker keeps: one place per message, owners that exist, a reason for each settlement, no failed message retried by its session |
| `ConsumerProofs.ReachableKeepsInv` | ai-worker/worker/consumer.py:83-140 | all of that holds in every state of every interleaving with crashes |
| `ConsumerProofs.StepKeepsCounted` | ai-worker/worker/consumer.py:98-114 | each step keeps twice the starts of a message within one of its delivery count, and the starts within three and the late claims so far |
| `ConsumerProofs.StartsAreCounted` | ai-worker/worker/consumer.py:31-64 | in every run, crashing anywhere and however slow, process_fn is started at most MAX_DELIVERY_ATTEMPTS / 2 + 1 = 3 times for one message, and once more for each claim that took it with its deliveries spent |
| `ConsumerProofs.StartsAreBounded` | ai-worker/worker/consumer.py:31-64 | so at most three times in every run in which each claim follows its scan within IDLE_CLAIM_MS |
| `ConsumerRuns.MessagesAreConserved` | ai-worker/worker/consumer.py:1-11 | each message is in exactly one of undelivered, pending, acknowledged, discarded; acknowledged only after process_fn returned for it, discarded only at five deliveries |
| `ConsumerRuns.BegunMessageIsNotLost` | ai-worker/worker/consumer.py:1-6 | whoever crashes, a message somebody began stays pending until it is settled |
| `ConsumerRuns.AcknowledgementSettles` | ai-worker/worker/consumer.py:138-140 | after its XACK a message is off the pending list and settled for good |
| `ConsumerRuns.SettledStaysSettled` | ai-worker/worker/consumer.py:107-140 | a settled message is never started again by any step |
| `ConsumerRuns.StaleIsTakenOver` | ai-worker/worker/consumer.py:42-64 | from every reachable state, a new worker whose pass nobody disturbs takes over every entry among the first hundred idle too long, or discards it when its deliveries are spent |
| `ConsumerRuns.StaleMessageIsRecovered` | ai-worker/worker/consumer.py:42-64 | and that worker starts the first of those it took over at once |
| `ConsumerRecovery.StaleIsTaken` | ai-worker/worker/consumer.py:47-63 | an entry any worker's scan finds stale is that worker's after its later claim, whatever all the workers did in between, unless it was settled or delivered again in between |
| `ConsumerRecovery.SpentIsDiscarded` | ai-worker/worker/consumer.py:47-60 | an entry any worker's scan finds spent is off the list and settled once that worker has come to discard it |
| `ConsumerRecovery.TakenIsStarted` | ai-worker/worker/consumer.py:60-114 | what a worker took over it still has at its history read within IDLE_CLAIM_MS, whatever the others do, unless the old owner acknowledged it after all; and it starts it exactly when its turn has come |
| `ConsumerRuns.ThreeStartsHappen` | ai-worker/worker/consumer.py:42-64 | the bound of three starts is reached by a run |
| `ConsumerRuns.SlowClaimStartsAFourth` | ai-worker/worker/consumer.py:47-63 | without the timing proviso a run starts a message a fourth time |
| `ConsumerRuns.LateClaimsStartMore` | ai-worker/worker/consumer.py:47-63 | for every n a run with n paused workers starts a message n + 3 times, so no bound holds that does not count late claims |
| `ConsumerRuns.FailedMessageNeverAgesOut` | ai-worker/worker/consumer.py:91-93 | one run: a single message failing in a worker that passes every 5 s is delivered any number of times and never discarded |
| `ConsumerAging.ListedIff` | ai-worker/worker/consumer.py:47 | a listing of at most n entries holds an entry exactly when fewer than n come before it |
| `ConsumerAging.HistoryRefreshesTheFirstTen` | ai-worker/worker/consumer.py:107-114 | a history read counts a delivery and restarts the idle time of exactly the first ten entries its session owns |
| `ConsumerAging.HistoryStartsIff` | ai-worker/worker/consumer.py:107-114 | a history read starts an entry exactly when it is among the first ten its session owns, has not failed there, and all the session's entries before it have |
| `ConsumerAging.LetBeWhileReadInTime` | ai-worker/worker/consumer.py:91-114 | over any run in which each scan that lists a failed entry comes within IDLE_CLAIM_MS of its session's last read of it, nobody claims, discards or starts it |
| `ConsumerAging.FoundExactlyWhenNotRead` | ai-worker/worker/consumer.py:48-55 | and the next scan finds it if and only if it lists it and no such read came in the last IDLE_CLAIM_MS: dead at five deliveries, stale below |
| `ConsumerAging.EleventhAgesOut` | ai-worker/worker/consumer.py:91-114 | a run: eleven messages failed in one worker that is up all the time, and the eleventh is claimed by it again and again and discarded |
| `ConsumerLoop.SortStale` | ai-worker/worker/consumer.py:48-55 | the loop splits the listing into the stale and the dead ids |
| `ConsumerLoop.ClaimStaleMessages` | ai-worker/worker/consumer.py:42-64 | changes the group exactly as scan, dead-letter and claim do |
| `ConsumerLoop.TakenIsSteps` | ai-worker/worker/consumer.py:96-114 | a pass up to the message it starts is exactly the commands scan, discard, claim, history read and, with nothing left to try, new read, each as the protocol has it |
| `ConsumerLoop.PassedIsSteps` | ai-worker/worker/consumer.py:96-140 | a whole pass is a run of the protocol: those commands, and then the return and the acknowledgement of what was started |
| `ConsumerLoop.Consumer.TakeNext` | ai-worker/worker/consumer.py:96-114 | a pass takes the protocol's steps up to the one message it starts: its own unsettled entries first, then a new one |
| `ConsumerLoop.Consumer.Pass` | ai-worker/worker/consumer.py:96-140 | a whole pass leaves the group and the session's failed set as the protocol's steps do |
| `FootageQueue.StatementKeeps` | ai-worker/worker/footage/db.py:50-76 | any statement keeps attempts within three and QUEUED below three, lowers the rank when it changes the status, and leaves READY and FAILED alone; update never changes the status |
| `FootageQueue.SweepFreesTheSilent` | ai-worker/worker/footage/db.py:50-62 | a sweep frees a video PROCESSING without a word for more than fifteen minutes, into the queue or, after three attempts, FAILED, and changes no other |
| `FootageQueue.SweepSparesTheBusy` | ai-worker/worker/footage/db.py:50-87 | within fifteen minutes of a report no sweep changes the row |
| `FootageQueue.RunKeeps` | ai-worker/worker/footage/db.py:50-152 | over any statements each grant is one attempt, and between two grants the row has left PROCESSING |
| `FootageQueue.VideoSettles` | ai-worker/worker/footage/db.py:26-76 | from a fresh row at most three claims are granted and six status changes happen; three attempts left behind settle the video |
| `FootageAttempts.RowFollowsItsStatements` | ai-worker/worker/footage/pipeline.py:42-128 | in every interleaving the row is what the statements sent so far make of it |
| `FootageAttempts.AnythingMayHappen` | ai-worker/worker/footage_main.py:40-47 | in every state a sweep may come, an idle worker may try to claim, and a busy one may stop or crash, a crash leaving the database as it is |
| `FootageAttempts.AtMostThreeAttempts` | ai-worker/worker/footage_main.py:39-47 | with takeovers, crashes and sweeps in any order a new video is attempted at most three times, each attempt by one worker, and READY or FAILED is final |
| `FootageContents.InsertsNeverCollide` | ai-worker/worker/footage/pipeline.py:59-61 | after clearing, a batch meets no second that an earlier attempt left in the table |
| `FootageContents.StepKeepsInv` | ai-worker/worker/footage/pipeline.py:42-128 | every step, sweeps of abandoned videos and sweeps after the last attempt included, keeps one worker at the video and the tables its own, or the video FAILED |
| `FootageContents.ReadyIsComplete` | ai-worker/worker/footage/pipeline.py:59-118 | unless a sweep puts the video back in the queue under a worker still at it, READY means one frame for each second from 0 to frames_indexed - 1, all of them and all findings from the last attempt, whatever earlier attempts left |
| `FootageContents.ProgressIsTheShare` | ai-worker/worker/footage/pipeline.py:87-92 | progress is 5 plus 75 times the share of the expected frames written, rounded down, and 80 once they all are |
| `FootageContents.ProgressClimbs` | ai-worker/worker/footage/pipeline.py:54-92 | progress never falls within an attempt and is at most 80 before finish |
| `FootageContents.OutcomeIsTheStatus` | ai-worker/worker/footage/pipeline.py:117-128 | what process returns is the status the row has |
| `FootageTakeover.TakeoverSpoilsIff` | ai-worker/worker/footage/db.py:50-62 | a sweep under a worker still at the video can end in a READY video that is not complete if and only if attempts are left; whatever stage the worker is at |
| `FootageTakeover.FreshVideoCanBeSpoilt` | ai-worker/worker/footage/pipeline.py:107-118 | from a fresh video a run leads to READY with frames indexed and none in the table |
| `FootageTakeover.FailedIsFinal` | ai-worker/worker/footage/db.py:65-152 | no run of any workers leads out of FAILED |
| `FootageWorker.RowsAreTheSeconds` | ai-worker/worker/footage/pipeline.py:74-86 | the rows are one for each second and no other, with the people and vehicles counted in it, or neither without the detector |
| `FootageWorker.CountsAreThePictures` | ai-worker/worker/footage/pipeline.py:77-80 | each second's count of a kind is that of its picture |
| `FootageWorker.SamplesAreThePictures` | ai-worker/worker/footage/pipeline.py:81-84 | each second's sample has its picture's share and description and the people counted in it |
| `FootageWorker.FootageDb.Claim` | ai-worker/worker/footage/db.py:65-76 | PROCESSING with one more attempt exactly when the row was QUEUED; the machine's step of claiming |
| `FootageWorker.FootageDb.ReleaseStale` | ai-worker/worker/footage/db.py:50-62 | a stale row is queued again or, after its last attempt, FAILED; the new status is returned; the machine's sweep |
| `FootageWorker.FootageDb.Update` | ai-worker/worker/footage/db.py:82-87 | sets progress whatever the status; the step of the attempt that reports that progress, and no other |
| `FootageWorker.FootageDb.AddFrames` | ai-worker/worker/footage/db.py:99-108 | all rows of the batch, or none when a second is in the table already; the step that inserts as many from there on, possible exactly when no second is there |
| `FootageWorker.FootageDb.Finish` | ai-worker/worker/footage/db.py:128-136 | READY with progress 100 exactly when the row was PROCESSING; the last step of a searched video |
| `FootageWorker.FootageDb.Fail` | ai-worker/worker/footage/db.py:139-152 | back in the queue while attempts are left and asked for, else FAILED, only from PROCESSING; the step of stopping, or of refusing where the attempt may |
| `FootageWorker.FootageDb.TablesFollowARun` | ai-worker/worker/footage/pipeline.py:42-128 | the steps taken so far are a run of the interleaving machine, which stands where the tables do, so that the row is what its statements make of it |
| `FootageWorker.Sampler.Read` | ai-worker/worker/footage/pipeline.py:74-85 | the loop over a batch adds its seconds to the rows and the dictionaries |
| `FootageWorker.Sampler.Flush` | ai-worker/worker/footage/pipeline.py:68-92 | the batch is in the table, counted and shown, or an error was raised; by the machine's insert of that batch and its report |
| `FootageWorker.SampleFrames` | ai-worker/worker/footage/pipeline.py:94-98 | every picture of the video is in the table and the dictionaries when the loop ends |
| `FootageWorker.Altercations` | ai-worker/worker/footage/pipeline.py:131-146 | the loop collects those windows |
| `FootageWorker.ConfirmedInOrder` | ai-worker/worker/footage/pipeline.py:131-146 | a window is among the findings, once for its place, exactly when the pose model confirms it, and the windows' order is kept |
| `FootageWorker.Find` | ai-worker/worker/footage/pipeline.py:101-105 | the findings are the stretches of people and of vehicles and the confirmed windows of the sampled pictures |
| `FootageWorker.Analyse` | ai-worker/worker/footage/pipeline.py:48-120 | done only with the tables complete; without a fault the ending depends on the file alone |
| `FootageWorker.Process` | ai-worker/worker/footage/pipeline.py:42-128 | the outcome is the row's status; READY with complete tables; QUEUED only after a fault with attempts left; SKIPPED changes nothing; all of it by steps of the machine, from the claim to the end of the attempt |
| `FootageWorker.TakeWaiting` | ai-worker/worker/footage_main.py:40-47 | the sweep takes a video exactly as listed: from the queue, or PROCESSING without a word for over fifteen minutes at its sweep with an attempt left; settled videos are untouched |
| `Crc.StepTakesBit` | desktop/scripts/build-icons.js:19 | one step is linear over xor: stepping a sum takes in the lowest bit of what was added |
| `Crc.TakenIsSteps` | desktop/scripts/build-icons.js:19 | n steps on a sum take in its n low bits and leave the rest added |
| `Crc.LowByteSteps` | desktop/scripts/build-icons.js:19-24 | eight steps on a word are eight steps on its low byte, and a shift of the rest |
| `Crc.ByteFromTable` | desktop/scripts/build-icons.js:24 | taking in a byte bit by bit is one look at the table |
| `Crc.Crc32.MakeTable` | desktop/scripts/build-icons.js:15-22 | entry i of the table is eight steps on i |
| `Crc.Crc32.Update` | desktop/scripts/build-icons.js:24 | one turn of the loop takes in the eight bits of the byte |
| `Crc.Crc32.Compute` | desktop/scripts/build-icons.js:14-26 | on every byte sequence the result is the CRC of section 3.4 of RFC 2083, bit by bit; the table is made once |
| `Crc.ChecksumOfIend` | desktop/scripts/build-icons.js:14-33 | the four letters of IEND have the checksum AE 42 60 82 that ends every PNG file |
| `Bytes.LittleEndianReadsBack` | desktop/scripts/build-icons.js:148 | a number written least significant byte first is read back |
| `Bytes.BigEndianReadsBack` | desktop/scripts/build-icons.js:29 | a number written most significant byte first is read back |
| `Png.ChunkReadsBack` | desktop/scripts/build-icons.js:28-33 | a reader that computes the bitwise CRC itself finds the chunk's type and data again |
| `Png.ChunkCarriesItsCrc` | desktop/scripts/build-icons.js:28-33 | the last four bytes of a chunk are, most significant first, the bitwise CRC of its type and data |
| `Png.ChunkBegins` | desktop/scripts/build-icons.js:28-33 | a chunk begins with the length of its data, most significant byte first, and its type |
| `Png.StripRecovers` | desktop/scripts/build-icons.js:42-46 | stripping each scanline's filter byte yields the pixels |
| `Png.FileReadsBack` | desktop/scripts/build-icons.js:35-54 | reading the file gives the same picture, for any lossless compression |
| `Png.FileBegins` | desktop/scripts/build-icons.js:35-54 | the file begins with the signature, a 13-byte IHDR, the side twice, and 8, 6, 0, 0, 0 |
| `Png.FileGoesOn` | desktop/scripts/build-icons.js:35-54 | after the header stands one IDAT chunk, whose data are the compressed scanlines |
| `Png.FileEnds` | desktop/scripts/build-icons.js:35-54 | the file ends with an empty IEND and AE 42 60 82 |
| `Png.FillScanlines` | desktop/scripts/build-icons.js:42-46 | the copying loop fills the buffer with the scanlines |
| `Png.MakePng` | desktop/scripts/build-icons.js:35-54 | makes that file, or refuses where a length does not fit in four bytes |
| `Ico.EntryDelimitsItsPng` | desktop/scripts/build-icons.js:151-167 | entry i gives the exact place and length of image i, inside the file |
| `Ico.ImagesTileTheFile` | desktop/scripts/build-icons.js:151-165 | no image overlaps the directory or another image, and there is no gap between them |
| `Ico.FileIsMadeIff` | desktop/scripts/build-icons.js:144-168 | a file is made exactly when there are at most 65535 images of at least 24 bytes and less than 4 GiB and the last begins below 4 GiB |
| `Ico.FileReadsBack` | desktop/scripts/build-icons.js:144-168 | every image of any list comes back whole, sides up to 255 exact and larger ones as 256 |
| `Ico.PngTellsItsSize` | desktop/scripts/build-icons.js:153-157 | an image made by makePNG is listed with its own size, 0 in the file for 256 |
| `Ico.MakeIco` | desktop/scripts/build-icons.js:144-168 | makes that file, or refuses where a read or write is out of range |
| `ClipRecorder.SavedIffAccepted` | backend/app/ingestion_main.py:198-208 | a clip is saved exactly for each alert that found its camera started and not recording, once the frames after it have come |
| `ClipRecorder.OneClipAtATime` | backend/app/ingestion_main.py:201-203 | the frames after one clip's alert are over before the alert of the camera's next clip |
| `ClipRecorder.BufferMoves` | backend/app/ingestion_main.py:223-252 | the ring buffer holds the last frames, at most its length |
| `ClipRecorder.Recorder.StartCamera` | backend/app/ingestion_main.py:221-223 | a camera loop begins with the buffer it finds, or an empty one |
| `ClipRecorder.Recorder.OnAlert` | backend/app/ingestion_main.py:195-208 | keeps: the maps say of each camera what happened to it, and each saved clip is the slice of its frames around its alert |
| `ClipRecorder.Recorder.OnFrame` | backend/app/ingestion_main.py:251-261 | keeps the same when a frame comes: the last min(PRE, frames so far) before the alert, then exactly max(1, POST) after it |
| `BoxSuppression.IouIsSymmetric` | ai-worker/worker/footage/detect.py:57-65 | symmetric |
| `BoxSuppression.IouIsAShare` | ai-worker/worker/footage/detect.py:57-65 | in [0, 1] for well-formed boxes |
| `BoxSuppression.IouOfABoxWithItself` | ai-worker/worker/footage/detect.py:65 | 1 for a box of at least the least union, smaller below |
| `BoxSuppression.KeptExactly` | ai-worker/worker/footage/detect.py:68-79 | a box is kept exactly when no kept box before it overlaps it too much |
| `BoxSuppression.KeptDoNotOverlap` | ai-worker/worker/footage/detect.py:69 | no two kept boxes overlap by more than the threshold |
| `BoxSuppression.DroppedForABetterOne` | ai-worker/worker/footage/detect.py:69 | every dropped box overlaps a kept one of at least its score by more than the threshold |
| `BoxSuppression.KeptStayDescending` | ai-worker/worker/footage/detect.py:70-79 | the kept boxes stay in order of score |
| `BoxSuppression.KeptAgain` | ai-worker/worker/footage/detect.py:68-79 | run again on what it kept it keeps it all |
| `BoxSuppression.KeepBest` | ai-worker/worker/footage/detect.py:71-79 | the loop ends and keeps just those boxes |
| `BoxDecoding.LetterboxFits` | ai-worker/worker/footage/detect.py:47-52 | the scaled frame fits the square, touches it on one axis and is centred to one pixel, for any frame |
| `BoxDecoding.DecodeUndoesTheLetterbox` | ai-worker/worker/footage/detect.py:43-93 | any box of the frame, put into the square as the resizing puts it there, comes back to within half a pixel of the square (for an axis that fills half a pixel or more), and exactly if and only if the scaled frame needed no rounding |
| `BoxDecoding.LongAxisIsExact` | ai-worker/worker/footage/detect.py:47-48 | the longer axis never needs rounding |
| `BoxDecoding.SortClass` | ai-worker/worker/footage/detect.py:70-88 | exactly the rows of the class that score enough, each once, best first |
| `BoxDecoding.Decode` | ai-worker/worker/footage/detect.py:82-100 | of each class: only rows whose highest score, enough of it, is that class's, each with that score and the box whose corners in the square are the row's; none overlapping another too much, and a better overlapping one for each row left out |
| `BoxDecoding.FoundComesBack` | ai-worker/worker/footage/detect.py:43-100 | what is found of a box put into the square as the letterbox does comes back corner by corner, with the highest of its scores |
| `Stretches.EventsAreComponents` | ai-worker/worker/footage/events.py:3-7 | two positive seconds are in one event exactly when no more than gap empty seconds lie between neighbours on the way |
| `Stretches.EventsHoldWhatWasSeen` | ai-worker/worker/footage/events.py:33-46 | an event begins, ends and is best where at least one was seen, its seconds are those it was seen in, and no such second is outside an event |
| `Stretches.FindStretches` | ai-worker/worker/footage/events.py:33-49 | the events are in order, disjoint, more than gap apart and cover every positive second once; most is the greatest count, score the best of its seconds, and best the earliest of those |
| `Stretches.Reported` | ai-worker/worker/footage/events.py:47-48 | the last loop sets the reasons and nothing else |
| `FightWindows.FlaggedIsInARun` | ai-worker/worker/footage/fight.py:86-88 | a candidate second is kept exactly when a neighbour is a candidate too |
| `FightWindows.TwoOfThreeAroundAMissAreNotFlagged` | ai-worker/worker/footage/fight.py:11 | candidate, miss, candidate is not flagged, against the module's text |
| `FightWindows.SameWindowIffLinked` | ai-worker/worker/footage/fight.py:86-98 | two flagged seconds share a window exactly when nowhere between them two or more are missing |
| `FightWindows.WindowsHoldTheSuspects` | ai-worker/worker/footage/fight.py:81-98 | a second is in a window exactly when it and a neighbour each have share and people enough |
| `FightWindows.WindowsAreDisjoint` | ai-worker/worker/footage/fight.py:99-102 | padded windows, and the ranges read again for them, are pairwise disjoint |
| `FightWindows.BestHasTheHighestShare` | ai-worker/worker/footage/fight.py:96-98 | a window's best second is a candidate of its own with the highest share |
| `FightWindows.FindWindows` | ai-worker/worker/footage/fight.py:81-102 | groups exactly the flagged seconds, pads them, and notes the best of each |
| `FightWindows.Gather` | ai-worker/worker/footage/fight.py:86-98 | the loop leaves the groups of exactly the flagged seconds |
| `AbandonedTracker.ReportsAreBacked` | ai-worker/worker/models/abandoned_model.py:104-115 | a reported object is backed by a chain of sightings, each within the match distance of the one before, spanning the dwell threshold |
| `AbandonedTracker.BoxesAreTheLarge` | ai-worker/worker/models/abandoned_model.py:59-69 | a call has one box for each contour of at least 1500, in order, bounding it and with its centre rounded down |
| `AbandonedTracker.UnstaleAre` | ai-worker/worker/models/abandoned_model.py:99-102 | pruning leaves exactly the tracks seen within five seconds |
| `AbandonedTracker.ActiveSurvive` | ai-worker/worker/models/abandoned_model.py:106-107 | a track seen in the call is not pruned, so its look-up never fails |
| `AbandonedTracker.Tracker.Nearest` | ai-worker/worker/models/abandoned_model.py:75-81 | the first of the nearest tracks within the match distance, if any |
| `AbandonedTracker.Tracker.Match` | ai-worker/worker/models/abandoned_model.py:74-97 | moves that track to the box, or begins one under a new number |
| `AbandonedTracker.Tracker.Lookup` | ai-worker/worker/models/abandoned_model.py:107 | finds the track of every active number |
| `AbandonedTracker.Tracker.Report` | ai-worker/worker/models/abandoned_model.py:104-115 | reports exactly the active tracks that began long enough ago, each once |
| `AbandonedTracker.Tracker.Detect` | ai-worker/worker/models/abandoned_model.py:41-117 | every large contour belongs to a track, none unseen for over five seconds is left, numbers never pass to another object, and the report is exact |
| `BreachDedup.NewIffLastIsOver` | ai-worker/worker/dedup.py:36-44 | a call is new exactly when there is none before it or the last one's cooldown is over |
| `BreachDedup.CoveredIffNeverShortened` | ai-worker/worker/dedup.py:41 | "no earlier cooldown covers it" agrees with that for all later calls if and only if the last cooldown reaches furthest |
| `BreachDedup.OneCooldownCovers` | ai-worker/worker/dedup.py:25-30 | with one cooldown for all calls a call is new exactly when no earlier one covers it |
| `BreachDedup.ShorterCooldownEndsTheEpisode` | ai-worker/worker/dedup.py:41 | a shorter cooldown ends an episode the first call still covers |
| `BreachDedup.DwellFromEpisodeStart` | ai-worker/worker/dedup.py:47-50 | dwell is measured from the first detection of the episode, the last call that was new |
| `BreachDedup.Redis.Register` | ai-worker/worker/dedup.py:22-50 | new if the key had gone, a repeat with its dwell if it lasts, the race and the invalid cooldown included; no other key changes |
| `BreachDedup.CallAlone` | ai-worker/worker/dedup.py:36-50 | in the machine of replicas a call nobody disturbs is new, or keeps the start of the key there is, and the key then lasts its own cooldown from now |
| `BreachDedup.NewOnceIffNoLiveOverwrite` | ai-worker/worker/dedup.py:36-50 | over every run of any replicas, expiries inside calls included, each episode is answered new exactly once if and only if no call sets the key over one set meanwhile; otherwise some episode is new twice |
| `BreachDedup.EachEpisodeIsNewOnce` | ai-worker/worker/dedup.py:36-50 | with any interleaving of replicas and no expiry while a call is under way no call reaches the second SET, and dwell is read from the current episode |
| `BreachDedup.ExpiryInsideTwoCallsRepeatsNew` | ai-worker/worker/dedup.py:42-45 | a run from the empty server in which the key goes inside two calls and one episode is new twice |
| `SettingsCache.Setting.Look` | ai-worker/worker/common/tenant_settings_cache.py:59-62 | a hit is exactly an entry younger than 30 seconds, and is what a call that was stored and began less than 30 seconds before resolved |
| `SettingsCache.Setting.Get` | ai-worker/worker/common/tenant_settings_cache.py:52-76 | with any callers and writers in between, the answer is, of some stored call, the row in force when it read, or else the registered fallback, or else its own default; it began less than 30 seconds before this call, or is this call; KeyError only without row, fallback and default, and never past an entry that is fresh and stays so |
| `SettingsCache.DefaultsMatterWithoutRowAndFallback` | ai-worker/worker/common/tenant_settings_cache.py:41-73 | a caller's default plays no part exactly when there is a row or a registered fallback |
| `SettingsCache.DefaultOfAnotherCaller` | ai-worker/worker/common/tenant_settings_cache.py:59-76 | without both, one caller's default answers the next, whose own answer would be a KeyError |
| `AlertRules.Make` | shared/shared/alert_rules.py:59-65 | a rule exactly when the severity is known and the incident severity is set just when an incident is created |
| `AlertRules.IncidentSeverityIsNotChecked` | shared/shared/alert_rules.py:59-65 | an unknown incident severity is accepted |
| `AlertRules.DefaultRule` | shared/shared/alert_rules.py:83-145 | every shipped rule is well-formed, creates an incident just when it is high or critical, and mirrors its severity onto it |
| `AlertRules.ShippedAreDefaults` | shared/shared/alert_rules.py:83-131 | each of the 26 rules of the shipped table is the default, with its severity |
| `RulesCache.DisabledIsNotAbsent` | ai-worker/worker/common/alert_rules_cache.py:48-66 | a disabled row silences the trigger, a valid row replaces the default with its own three fields, an invalid row leaves it |
| `RulesCache.AbsentIsTheDefault` | ai-worker/worker/common/alert_rules_cache.py:98-102 | without a row the shipped default is the answer |
| `RulesCache.AnswersAreWellFormed` | ai-worker/worker/common/alert_rules_cache.py:53-66 | whatever rows are in the table, an answer is a well-formed rule or None |
| `RulesCache.FetchRules` | ai-worker/worker/common/alert_rules_cache.py:39-67 | the loop builds those overrides |
| `RulesCache.TenantRules.GetOverrides` | ai-worker/worker/common/alert_rules_cache.py:70-84 | the overrides of a fetch some caller stored less than 30 seconds before the call, or in it; whatever is recorded in the call was fetched in it, or by a caller already at it, from its true beginning; nothing after a failed lookup, which is not stored; with an entry younger than 30 seconds no lookup can fail |
| `RulesCache.TenantRules.Renew` | ai-worker/worker/common/alert_rules_cache.py:77-84 | without a usable entry the answer is that of a fetch begun in the call, or the lookup failed |
| `RulesCache.TenantRules.ResolveRule` | ai-worker/worker/common/alert_rules_cache.py:87-102 | the answer is that of the rows in force when a stored fetch read them: stored less than 30 seconds before the call and read less than 30 seconds plus its own true duration before; or, only without a fresh entry, the default after a failure; always well-formed |
| `EvidencePurge.PurgeLeavesNoOrphanFile` | backend/app/scheduler_main.py:172-177 | a turn, completed or not, leaves no file without a row |
| `EvidencePurge.KeptRowKeepsItsFile` | backend/app/scheduler_main.py:194-201 | a row that is held, another tenant's or young enough stays; its file goes if and only if it can be removed and an unheld older row of the tenant shares its path |
| `EvidencePurge.CrashSafe` | backend/app/scheduler_main.py:172-230 | over any number of turns and crashes, with evidence arriving, holds set and released and erasures on request in between, every file on disk has its row, and a row goes only in a step that found it expired and unheld, or erases it, and after its file |
| `EvidencePurge.OnlyDoomedFilesGo` | backend/app/scheduler_main.py:194-212 | over all that a file goes only in a step that takes a row with its path |
| `EvidencePurge.KeptThroughAll` | backend/app/scheduler_main.py:194-212 | a row that no step takes is there at the end, and so is its file unless a step took a row with the same path |
| `EvidencePurge.HeldIsKept` | backend/app/scheduler_main.py:194-201 | over any purges, erasures, crashes and arrivals a row held, another tenant's or young enough at every turn is there in the end, and so is its file if every row with its path was |
| `EvidencePurge.TurnsOnlyRemove` | backend/app/scheduler_main.py:182-226 | a purge, completed or cut short, only removes: rows expired for one of its turns, after their files |
| `EvidencePurge.CleanPurgeRemovesExactly` | backend/app/scheduler_main.py:181-226 | a purge in which nothing breaks removes a row if and only if it had expired unheld for one of its turns and its file, if there, can be removed; rows a crash left without files included |
| `EvidencePurge.CleanTurnRemovesWhatACrashLeft` | backend/app/scheduler_main.py:213-226 | rows a crash left without files go with the next completed turn |
| `EvidencePurge.Evidence.PurgeTenant` | backend/app/scheduler_main.py:182-226 | a committed turn removes exactly the tenant's unheld rows captured before the cutoff whose files could go, and a file only with such a row; one cut short changes no row; without a fault it commits |
| `EvidencePurge.Evidence.Purge` | backend/app/scheduler_main.py:181-226 | the loop over tenants completes every turn but the one it breaks in, and without a fault all of them, so that exactly those rows are gone |
| `PatrolScore.FullScoreIff` | backend/app/scheduler_main.py:1235-1241 | the rounded score reaches 100 exactly when 2000 times the missed checkpoints are at most the total |
| `PatrolScore.ScoreIsNearest` | backend/app/scheduler_main.py:1235-1236 | the score is the tenth of a per cent nearest to the share scanned, a half to the even one, and 100 on a route without checkpoints |
| `PatrolScore.FullScoreMeansNoneMissed` | backend/app/scheduler_main.py:1235-1241 | for totals below 2000: exactly when none is missed |
| `PatrolScore.OneOfTwoThousandMissed` | backend/app/scheduler_main.py:1235 | with 2000 checkpoints and one missed it is 100 |
| `PatrolLinking.LateIsAheadOfTheClock` | backend/app/scheduler_main.py:1177-1184 | no occurrence whose window is over is linked, so late needs a start after the pass's clock |
| `PatrolLinking.LeavesPendingOnce` | backend/app/routers/compliance.py:433-485 | over any passes, resolutions by hand and other changes an occurrence never returns to pending, and only its own resolution changes the status it got |
| `PatrolLinking.ResolutionIsWritten` | backend/app/routers/compliance.py:443-478 | a resolution sets status, session, score and missed checkpoints of its occurrence alone, and is refused for an unknown one or for pending |
| `PatrolLinking.ResolveKeepsOneToOneIff` | backend/app/routers/compliance.py:470-485 | a resolution keeps the links one to one if and only if the session it names, if any, stands at no other occurrence |
| `PatrolLinking.PassKeepsOneToOne` | backend/app/scheduler_main.py:1199-1250 | a pass keeps links one to one |
| `PatrolLinking.LinksStayOneToOne` | backend/app/scheduler_main.py:1176-1275 | so they stay one to one over any passes, such resolutions and other changes |
| `PatrolLinking.Tables.Expire` | backend/app/scheduler_main.py:1177-1184 | on any table, marks missed exactly the waiting occurrences whose window is over |
| `PatrolLinking.Tables.Nearest` | backend/app/scheduler_main.py:1217-1227 | a fitting occurrence closest to the start, if there is one |
| `PatrolLinking.Tables.Pass` | backend/app/scheduler_main.py:1176-1275 | on any table, moves only waiting occurrences, links only recent sessions that stood nowhere to one fitting open occurrence each, the closest, and leaves no fitting pair unlinked |
| `PatrolLinking.PassDealsWithAll` | backend/app/scheduler_main.py:1176-1275 | what a pass does to every row: missed, or linked to a session completed in the last 48 hours on its route within two hours, the closest, late by its start alone, else completed when at most one checkpoint in 2000 was missed, with its score and checkpoints missed |
| `WakeUp.NudgeBringsAPass` | backend/app/intelligence_main.py:95-142 | after a nudge at any point the flag stays up until the next pass begins, and no run puts that off: a rest ends within the gap after its pass, and otherwise no time goes by after the nudge or the end of the rest |
| `WakeUp.PassWithinTheTick` | backend/app/intelligence_main.py:136-141 | without a nudge the next pass begins within what the tick leaves after the gap |
| `WakeUp.PassesKeepTheGap` | backend/app/intelligence_main.py:136 | passes never begin closer than the minimum gap |
| `WakeUp.RestIsTheGap` | backend/app/intelligence_main.py:136 | the rest is over exactly the minimum gap after the pass |
| `WakeUp.OrderEndsTheLoop` | backend/app/intelligence_main.py:95-142 | after the order to stop no run begins another pass, and no time goes by but the rest of the pass under way |
| `WakeUp.NeverStuck` | backend/app/intelligence_main.py:95-142 | until it has stopped the loop can always go on |
| `WakeUp.Runner.Await` | backend/app/intelligence_main.py:136-142 | an await ends at its deadline, the order to stop, or the nudge it waits for |
| `WakeUp.Runner.Turn` | backend/app/intelligence_main.py:95-142 | a turn of the loop takes the steps of the machine, whatever the other tasks do |
| `WakeUp.Runner.RunLoop` | backend/app/intelligence_main.py:95-142 | however the tasks interleave the loop's passes keep the gap |

## Left out

- Redis, PostgreSQL, the network and the disk: only the commands and statements used are specified, each transaction atomic, with rollback; `footage_waiting()` is taken from `ai-worker/worker/footage/db.py:44`.
- Entries trimmed from a stream, and the re-creation of a lost group (`ai-worker/worker/consumer.py:115-121`): a run is one life of a group.
- Two workers drawing the same eight-digit session name (`ai-worker/worker/consumer.py:89`), and a Redis clock that goes backwards.
- Metrics, logging and the published live events.
- Neural models, OpenCV, ffmpeg and the similarity shares: boxes, counts, shares, contours and frames are inputs. The pose model's verdict on a window is a function given (`ai-worker/worker/footage/fight.py:105-116`).
- Rounding in floating point: progress, shares, scores, distances and dwell are exact; the one-decimal dwell, the four-decimal finding score and the metadata stored with a video are left out.
- The painting of the letterbox canvas; only where the scaled frame stands in it is modelled.
- Which of equal scores comes first, as numpy's argsort leaves it: any order with the best first.
- The doorbell stream of the footage worker and its reconnecting loop (`ai-worker/worker/footage_main.py:67-94`): each processing it causes is one more attempt in the model.
- The playable copy and thumbnails: they touch neither the row before the end nor the tables.
- What a person's resolution of an occurrence computes for its score and missed checkpoints: both are inputs of the change.
- The reset of a video to a fresh row, and its deletion, by the API.
- One setting, one tenant's rules, one camera and zone at a time: other keys of the same cache or map are independent; the recorder and the Redis keys are modelled with all their keys.
- Reading the fallback from the environment and casting it (`ai-worker/worker/common/tenant_settings_cache.py:41-49`): the registered fallback is one value.
- The S3 branch of the purge (`backend/app/scheduler_main.py:203-209`), which drops the row also when the object could not be deleted, and the counts the purge returns.
- Evidence rows whose media was never a file of this store (`backend/app/routers/alarms.py:749`): they are rows without files. A cutoff is given with each turn.
- The loop over tenants and the published events of the compliance pass; a tenant's pass is one transaction.
- Deflate, the drawing of the shield, and pixel buffers shorter than the picture.
- The stream health tracker and the privacy mask's Keeper: a frame that is not masked never reaches the recorder's blocks.
- The listener's connection and the parsing of messages in the intelligence runner; the four ticks of a pass are one pass of any length.
- The rest of the scheduler, the routers, the frontends, migrations and seeders.
- FootageWorker.FootageDb.AddFrames: a batch is a map by second, so a batch holding one second twice cannot be expressed; the frame loop never makes one.
- AbandonedTracker.Tracker.Detect: reports the tracks in any order and with their numbers, which the program's answer leaves out; it also hands out the set of active numbers and keeps the history of calls for its contract.
- WakeUp.NudgeBringsAPass: assumes that a task runs on as soon as what it awaits has come about; scheduling delays of the event loop are not modelled.
