# Photobooth: a verified model

A Dafny model of the parts of the photobooth that carry state across time or arithmetic that must never be
off by one: the durable job queue and the workers that drain it, the print limit, the capture session, the
camera link, the camera's event queue, the compositor, the timestamps, and the retention sweep.

`dafny verify dfyconfig.toml` checks everything.

## How the model is laid out

Code that updates fields is a class whose methods are proved against functions on values; the theorems are
about those functions, about every run of a step system built from them, or about both.

| program | class and methods | values, steps and theorems |
|---|---|---|
| storage/queue.py | `JobQueue.dfy` | `JobTable.dfy`, `WorkerPool.dfy`, `WorkerJobs.dfy`, `WorkerProgress.dfy`, `TableSums.dfy` |
| printing/queue.py | `PrintPolicy.dfy` | `PrintPolicy.dfy` |
| core/state.py, web/session.py | `SessionManager.dfy` | `SessionProtocol.dfy`, `SessionSafety.dfy`, `SessionTrace.dfy` |
| web/session.py with web/routers/share.py | | `SessionSharing.dfy`, `SessionKeys.dfy`, `SessionTokens.dfy`, `SessionDeliverables.dfy`, `SessionOverlap.dfy` |
| camera/messages.py, camera/worker.py | `Framing.dfy` | `Framing.dfy` |
| camera/client.py, camera/worker.py | `CameraClient.dfy` | `CameraLink.dfy`, `LinkSafety.dfy`, `CameraExchange.dfy`, `CameraCodec.dfy` |
| camera/gphoto.py | `GphotoBackend.dfy` | `GphotoBackend.dfy`, `GphotoRuns.dfy` |
| pipeline/compositor.py, pipeline/template.py | `Painting.dfy`, `Geometry.dfy` | the same |
| config/event.py, pipeline/compositor.py | | `Placeholders.dfy` |
| storage/repos.py, `created_at` | | `IsoTime.dfy` |
| storage/retention.py | `Retention.dfy` | `Retention.dfy` |

A coroutine is cut at its awaits. In `SessionProtocol` a running `capture()` is a `Frame`: the await it is
suspended at and its local variables; any other coroutine may run before it is resumed. In `WorkerPool` a
worker is suspended while it sleeps or its handler runs. A step that cannot be taken leaves the state as it
is, so every sequence of actions is a run and "for all runs" needs no side condition. Clock readings, what
the camera answers, how the network splits and cuts a stream, and which file cannot be deleted are
parameters. Uuids and share tokens come from a counter, so they are fresh.

## Where the code does less than its words

Each of these is a theorem here, stated as the exact condition or as a concrete run.

* The docstring of `claim` explains why it is free of races. It is, for double claims, even when its SELECT
  and UPDATE are pulled apart (`MutualExclusion`). But the UPDATE re-checks `status` and not
  `next_attempt_at`: pulled apart it takes a job that is not due exactly when the job has failed since the
  SELECT (`EarlyClaimIffFailedSince`), and such runs exist (`SplitClaimSkipsBackoff`). The timing theorems
  therefore use that `claim` has no await.
* `_drain_stale_events` is there so that a capture never takes an earlier picture. It removes what is queued;
  a file of an earlier release that arrives after a pause of more than 10 ms outlives it. A capture gets its
  own file if and only if no such file comes first (`CaptureGetsOwnFile`, `WhoseFile`).
* `load_template` promises to reject slots that overflow the canvas and checks the far edges only. A slot it
  accepts paints inside the canvas for every source exactly when its own corner is not negative
  (`AcceptedSlotPaintsInside`).
* The short edge of a scaled variant is within half a pixel of proportional exactly when the proportional
  length is at least half a pixel (`ScaledVariantEdges`): below that libvips keeps one pixel.
* An `arm()` that raises while loading its configuration leaves the machine ARMED with the slot count of the
  session before and writes no session row. A capture can follow, and it broadcasts a token with REVIEW all
  the same: the token leads to its session if and only if the arm returned normally (`TokenLeadsToSession`,
  `FailedArmStillAnnounces`), and what is delivered is the first raw shot (`CaptureAfterFailedArm`).
* A render that fails leaves the machine in CAPTURING, exactly when there was no dismiss, while a camera failure
  leaves it IDLE (`CaptureProtocol`); the booth then refuses to be armed until it is dismissed
  (`FailedRenderBlocksArm`).
* `CAPTURING -> COUNTDOWN` is meant for the next shot of one capture, and lets a second `capture()` in. A session
  can then get a token and two deliverables (`OverlapDeliversTwice`). With one capture at a time, and no arm during
  one, it cannot: that is the condition `ExclusiveRun` of `SharedSessionIsDelivered` and the token and deliverable
  theorems, which a caller meets by waiting for a capture to end.
* `run_retention_sweep_once` says rows and files go as a unit. A file that cannot be unlinked in the sweep that takes
  its row is never tried again: it stays for good exactly then (`LockedFileIsOrphaned`).
* The sweep is safe for the files of every kept capture exactly when no kept and no swept id differ by
  `-preview` (`KeptFilesAreSafe`).

## Model

| member | source | states |
|---|---|---|
| JobTable.Candidates | src/photobooth/storage/queue.py:78-89 | the answer of the SELECT: exactly the eligible rows, each once, oldest first |
| JobTable.NextJobIsOldestEligible | src/photobooth/storage/queue.py:76-109 | `claim` finds nothing if and only if nothing is eligible; otherwise an eligible job older than every other eligible one |
| JobTable.BackoffDoubles | src/photobooth/storage/queue.py:122-127 | the first wait is the base, each further one twice the one before, none above 3600 seconds |
| JobTable.DefaultWaits | src/photobooth/storage/queue.py:119-146 | a worker's waits are 5·2^(n-1) seconds for the first ten failures and an hour from then on |
| JobQueues.JobQueue.Enqueue | src/photobooth/storage/queue.py:49-60 | appends one row, every field stated: pending, no attempts, due at once, with the kind, payload and limit given |
| JobQueues.JobQueue.Claim | src/photobooth/storage/queue.py:62-109 | hands out the oldest job that is pending, due and of the kind, with the kind, payload and attempts of its row, and marks that row claimed, touching no other; None and no change if and only if no job is due |
| JobQueues.JobQueue.Complete | src/photobooth/storage/queue.py:111-117 | that row is done, every other field and row as it was; an unknown id changes nothing |
| JobQueues.JobQueue.Fail | src/photobooth/storage/queue.py:119-152 | one more attempt and the error, every field stated; dead exactly when the attempts reach the limit, else pending and due after a wait between the base and an hour; no other row changes; an unknown id changes nothing |
| JobQueues.RunWorker | src/photobooth/storage/queue.py:178-207 | whatever calls others make on the queue while the handler runs or the loop sleeps, the table is that of claim, those calls, then complete or fail, turn by turn; the handler is called with the jobs the turns claim, in order, each of the worker's kind and with the payload its row has had since it was enqueued |
| WorkerPool.StepKeepsInv | src/photobooth/storage/queue.py:62-207 | every step of any worker keeps: handlers and claimed rows match one to one, and attempts match handler runs |
| WorkerPool.MutualExclusion | src/photobooth/storage/queue.py:62-152 | in every run of any number of workers, with `claim` split between SELECT and UPDATE or not, no job is held twice, a claimed job has a holder, and a held job is claimed |
| WorkerPool.AttemptAccounting | src/photobooth/storage/queue.py:111-152 | in every run handler runs = attempts + 1 if claimed or done; never more than max(1, max_attempts); a dead job has used them all |
| WorkerPool.UninterruptedSplitIsClaim | src/photobooth/storage/queue.py:76-109 | SELECT then UPDATE with nothing in between is the one-step claim |
| WorkerPool.TurnIsPoolRun | src/photobooth/storage/queue.py:196-207 | one pass of the loop, with any steps of other workers, enqueues and clock ticks during its await, is claim, those steps and settle of the step system |
| WorkerPool.WorkerLoopIsPoolRun | src/photobooth/storage/queue.py:195-207 | the loop of `run_worker` among any number of other workers is a run of the step system, so its theorems hold of the method |
| WorkerJobs.RowsAreEnqueues | src/photobooth/storage/queue.py:49-152 | in every run the rows are the enqueues in order, and keep kind, payload and limit |
| WorkerJobs.HandlersGetWhatWasEnqueued | src/photobooth/storage/queue.py:99-108 | in every run a running handler was called with the payload and kind its job was enqueued with, and the kind is its worker's |
| WorkerProgress.MovesChangeRows | src/photobooth/storage/queue.py:91-152 | a step other than an enqueue changes the table if and only if it starts or ends a handler |
| WorkerProgress.StepLowersRank | src/photobooth/storage/queue.py:91-152 | every claim and every settlement changes one row and brings it closer to its end |
| WorkerProgress.WorkersTerminate | src/photobooth/storage/queue.py:119-152 | without enqueues a run makes at most 2·max(1, max_attempts) claims and settlements per job, whatever the interleaving |
| WorkerProgress.StepKeepsTimed | src/photobooth/storage/queue.py:145-151 | every step keeps each job's due time at or after its first claim plus all its waits so far |
| WorkerProgress.DeadLetterTime | src/photobooth/storage/queue.py:119-152 | a job dead after m attempts died at least the sum over n < m of min(5·2^(n-1), 3600) s after its first claim |
| WorkerProgress.BackoffSumInSeconds | src/photobooth/storage/queue.py:145-146 | that sum is 5·(2^m - 1) seconds for m up to ten, and an hour more for every further failure |
| WorkerProgress.EarlyClaimIffFailedSince | src/photobooth/storage/queue.py:76-97 | with anything between SELECT and UPDATE, the UPDATE takes a job not yet due by the claim's clock reading if and only if the job failed since the SELECT |
| WorkerProgress.SplitClaimSkipsBackoff | src/photobooth/storage/queue.py:91-97 | a run with SELECT and UPDATE apart that hands out a job before its wait is over |
| WorkerProgress.ClaimTakesOlder | src/photobooth/storage/queue.py:76-109 | while a job is eligible a claim of its kind takes it or one created before it |
| WorkerProgress.BypassStep | src/photobooth/storage/queue.py:139-152 | a step that passes an eligible job over keeps it eligible, and a claim that does so lowers the attempts left to older jobs |
| WorkerProgress.BoundedBypass | src/photobooth/storage/queue.py:76-109 | an eligible job is claimed after at most as many claims of its kind as older jobs have attempts left |
| WorkerProgress.AheadIsAttemptsLeft | src/photobooth/storage/queue.py:137-146 | what is ahead of a job is no more than max(1, max_attempts) less the attempts used, summed over the older jobs of its kind |
| PrintPolicy.PrintQueue.Submit | src/photobooth/printing/queue.py:50-66 | accepted if and only if prints remain for the session; then one print job with that image and session is appended; refused, nothing changes and the error names the counts |
| PrintPolicy.PrintQueue.RemainingForSession | src/photobooth/printing/queue.py:68-85 | zero if and only if the session's jobs of any status reach the limit |
| PrintPolicy.SubmitUsesOne | src/photobooth/printing/queue.py:50-69 | an accepted submission lowers what remains by one for that session and leaves every other session alone |
| PrintPolicy.CountIsNumberOfJobs | src/photobooth/printing/queue.py:71-85 | the count is the number of print jobs that name the session, of any status |
| PrintPolicy.PrintsComeFromSubmits | src/photobooth/printing/queue.py:62-66 | in every run a print job is that of a submission, and carries that submission's image for its session |
| PrintPolicy.WorkKeepsCounts | src/photobooth/storage/queue.py:111-152 | no claim, completion, failure, dead-letter or job of another kind changes any session's count |
| PrintPolicy.LimitHolds | src/photobooth/printing/queue.py:56-61 | from any table within the limit, every run keeps each session at no more than max(0, limit) print jobs |
| PrintPolicy.LimitHoldsFromStart | src/photobooth/printing/queue.py:50-85 | the same from an empty table |
| SessionManagers.SessionStateMachine.Transition | src/photobooth/core/state.py:22-59 | each state is entered exactly from the states listed, IDLE from every other, and a refused move changes nothing |
| SessionManagers.SessionManager.TransitionTo | src/photobooth/web/session.py:139-144 | machine, session row and event change together, each as stated, or nothing does |
| SessionManagers.SessionManager.ArmSession | src/photobooth/web/session.py:157-180 | allowed if and only if idle; opens a session of the template's slot count and writes its row, or, when loading the configuration raises, opens one with the old slot count and no row |
| SessionManagers.SessionManager.DismissSession | src/photobooth/web/session.py:339-340 | the machine is idle afterwards, whatever it was; refused, without change, exactly if it was idle |
| SessionManagers.SessionManager.IssueShareTokenAndEnqueueUploads | src/photobooth/web/session.py:316-337 | with a queue a fresh token, in the session's row if it has one, and one upload job under the file's name; without one nothing |
| SessionManagers.SessionManager.FinalizeCapture | src/photobooth/web/session.py:292-314 | the raw shot or a rendered composite becomes the deliverable, as the protocol says from after the last shot |
| SessionManagers.SessionManager.TakeShot | src/photobooth/web/session.py:200-265 | one pass of the loop is the protocol from one loop head to the next, or to the end of a failed capture |
| SessionManagers.SessionManager.Capture | src/photobooth/web/session.py:182-270 | whatever dismisses, arms, failing ones too, and steps of other captures come at its awaits, the loop ends in the state and with the exception of the awaits-cut protocol, so the theorems below are about it |
| SessionSafety.EdgesByTarget | src/photobooth/core/state.py:22-36 | whence each state can be entered |
| SessionSafety.DismissIdles | src/photobooth/web/session.py:339-340 | for every booth a dismiss ends in IDLE, tells row and guest, changes nothing else, and nothing at all in IDLE |
| SessionSafety.DismissThenArm | src/photobooth/web/session.py:157-180 | from every world an arm right after a dismiss is accepted and opens a fresh session; also after an arm that raised |
| SessionSafety.StepKeepsRowsMirror | src/photobooth/web/session.py:139-180 | every step of every coroutine keeps the current row equal to the machine's state and every other row idle |
| SessionSafety.RowsMirrorAlways | src/photobooth/web/session.py:139-180 | so does every interleaving of any number of arms, captures and dismisses |
| SessionSafety.RowsMirrorFromOpening | src/photobooth/storage/repos.py:17-29 | and from an empty database it holds at every suspension point |
| SessionSafety.SoloStep | src/photobooth/web/session.py:200-270 | one await: what is true of a single capture stays true, and it becomes doomed exactly when it is dismissed before review or a call fails |
| SessionSafety.StateDuringCapture | src/photobooth/core/state.py:22-36 | at every await of a single capture the machine is in the state that await expects, and idle from the first dismiss on |
| SessionSafety.CaptureProtocol | src/photobooth/web/session.py:182-270 | REVIEW only after exactly shot_count trigger/download pairs with all files written; raising if and only if dismissed or a call failed; then IDLE, except that a failed render leaves CAPTURING exactly when there was no dismiss; the camera gate open at every trigger and at the end |
| SessionSafety.CaptureRefused | src/photobooth/core/state.py:22-36 | `capture()` raises at once and changes nothing exactly in the states other than ARMED and CAPTURING |
| SessionSafety.RenderGetsOneSourcePerSlot | src/photobooth/web/session.py:292-302 | the render is asked for one source per slot the template had when armed, so the compositor's guard cannot trip |
| SessionTrace.ResumeProgresses | src/photobooth/web/session.py:200-270 | every resumption brings a capture closer to its end |
| SessionTrace.DriveIsRun | src/photobooth/web/session.py:182-270 | a capture driven to its end among dismisses, arms and other captures is a finished run of the protocol |
| SessionTrace.DriveIsSolo | src/photobooth/web/session.py:182-270 | and, when nobody arms or captures meanwhile, one of the single-capture runs |
| SessionTrace.CaptureEnds | src/photobooth/web/session.py:182-270 | the protocol theorem for a capture that has ended, whatever the surroundings did |
| SessionTrace.TraceOfPass | src/photobooth/web/session.py:200-265 | the events of one shot for every way it can go, and where the loop is afterwards |
| SessionTrace.UndisturbedTrace | src/photobooth/web/session.py:200-270 | for every shot count and every sequence of camera outcomes the exact events; it returns if and only if every shot was taken and the render worked, and otherwise raises what failed |
| SessionTrace.UndisturbedState | src/photobooth/web/session.py:182-270 | REVIEW after a normal return, CAPTURING after a failed render, IDLE after a failed camera |
| SessionTrace.FailedRenderBlocksArm | src/photobooth/web/session.py:272-302 | all shots taken, more than one slot and a failed render: exactly then the capture raises the render's fault, and the booth refuses every arm until a dismiss |
| SessionSharing.ListedRowExists | src/photobooth/storage/repos.py:142-155 | whatever `list_by_session` lists is a deliverable row of that session |
| SessionSharing.StepSharing | src/photobooth/web/session.py:182-337 | every step with at most one capture under way keeps every session with a token shared: one deliverable, its file, one upload |
| SessionSharing.SharedSessionIsDelivered | src/photobooth/web/routers/share.py:106-130 | in every such run a session with a token has one deliverable row, its file, one upload job, and the QR target ends in that job's remote key and is never a 404 |
| SessionKeys.HexReadsBack | src/photobooth/web/session.py:333 | the name of an id is the id in hexadecimal digits |
| SessionKeys.RemoteKeysDiffer | src/photobooth/web/session.py:333 | two captures have the same remote key if and only if they are the same |
| SessionKeys.ImagesAreThere | src/photobooth/web/session.py:231-259 | under any interleaving no two capture rows share an id, and every announced preview and full image is on disk |
| SessionKeys.RemoteKeysAreUnique | src/photobooth/web/session.py:316-337 | in every run with one capture at a time no two upload jobs have the same remote key or file |
| SessionKeys.SharedPictureIsUploadedOnce | src/photobooth/web/session.py:327-336 | the picture of a session with a token is uploaded by exactly one job, from its own file under its own key |
| SessionKeys.SessionsDoNotShareKeys | src/photobooth/web/routers/share.py:106-130 | two sessions with tokens list different captures, with different remote keys and different QR targets |
| SessionKeys.RStripIs | src/photobooth/web/routers/share.py:130 | `rstrip` takes off slashes only, and all of them |
| SessionKeys.QrWithoutBase | src/photobooth/web/routers/share.py:114-116 | without a public base URL the QR code leads to this program's share page of the token |
| SessionKeys.QrMissing | src/photobooth/web/routers/share.py:121-129 | with one it is a 404 if and only if the session has no deliverable row |
| SessionOverlap.OverlapDeliversTwice | src/photobooth/core/state.py:31-33 | a run in which a second capture starts while the first waits for the shutter, and the session with a token lists two deliverables |
| SessionOverlap.OverlapIsNotExclusive | src/photobooth/core/state.py:31-33 | that run is not one of those with one capture at a time |
| SessionTokens.StepKeepsTokens | src/photobooth/web/session.py:139-180 | every step keeps: a row exists if and only if an arm announced it, and a broadcast token is in its session's row if there is one and in no other |
| SessionTokens.TokenLeadsToSession | src/photobooth/web/session.py:267-337 | in every run with one capture at a time a broadcast token resolves to its session, and only to it, if and only if the arm that opened the session returned normally |
| SessionTokens.CaptureAfterFailedArm | src/photobooth/web/session.py:157-179 | after an arm that raised a capture that reaches its review took the old number of shots and delivered the first raw one for a session without a row; listed with one slot, nothing listed with more |
| SessionTokens.FailedArmStillAnnounces | src/photobooth/web/session.py:316-337 | and for every slot count it returns exactly when every shot was taken, and has then broadcast a token that no row holds |
| SessionDeliverables.StepKeepsKinds | src/photobooth/web/session.py:228-311 | every step keeps what sessions with a token list, and that it is of the right kind |
| SessionDeliverables.SharedSessionListsRightKind | src/photobooth/storage/repos.py:142-155 | a session with a token was announced for some number of shots and lists a raw shot if and only if that is one, else the composite |
| SessionDeliverables.ReviewedDeliverableStays | src/photobooth/web/session.py:267-314 | entering its review a session lists, and the program reports, its one shot, or its composite, which is none of its shots; a session with a token lists the same ever after |
| Framing.BigEndianRoundTrip | src/photobooth/camera/messages.py:123-132 | header and length determine each other |
| Framing.HeaderOrder | src/photobooth/camera/messages.py:124-129 | headers compare from their first byte on as their lengths, so the first byte weighs most |
| Framing.LengthLimit | src/photobooth/camera/messages.py:127-132 | lengths are accepted up to 67,108,864 and refused above, with the length |
| Framing.FrameRecognised | src/photobooth/camera/messages.py:123-132 | a frame is read back from its own bytes, whatever follows |
| Framing.PrefixIsWhole | src/photobooth/camera/messages.py:123-132 | a prefix of a frame as long as its header announces is the whole frame |
| Framing.ReadExact | src/photobooth/camera/worker.py:39-49 | exactly the next bytes under every splitting into chunks, or None if and only if the stream ends first |
| Framing.ServeConnection | src/photobooth/camera/worker.py:96-108 | the loop over chunks yields what the whole stream contains |
| Framing.CutStreamYieldsCompleteFrames | src/photobooth/camera/worker.py:96-108 | a stream of frames cut at any byte yields exactly the frames complete before the cut |
| Framing.WholeStreamYieldsPayloads | src/photobooth/camera/worker.py:96-108 | an uncut stream yields exactly the payloads |
| Framing.OversizedEndsReading | src/photobooth/camera/worker.py:98-103 | a header that announces too much ends the reading after all frames before it |
| LinkSafety.CompleteFrameIsAnswer | src/photobooth/camera/client.py:69-83 | a complete frame at the client decodes to the worker's answer to the request it waits for, and nothing is behind it |
| LinkSafety.CompleteFrameIsRequest | src/photobooth/camera/worker.py:99-107 | a complete frame at the worker decodes to the request as issued, not yet executed |
| LinkSafety.StepKeepsInv | src/photobooth/camera/client.py:61-83 | every step of callers, worker and network keeps: what is in flight is a prefix of the one open exchange |
| LinkSafety.EachRequestGetsItsOwnAnswer | src/photobooth/camera/client.py:61-83 | with any callers and drops at any byte, a request that returns gets the worker's answer to that request; the backend executes requests in lock order, each at most once, as issued; every answer comes from an execution |
| LinkSafety.IdleConnectionIsClean | src/photobooth/camera/client.py:61-83 | when no exchange is open the connection in use carries no bytes in either direction |
| CameraExchange.WorkerReadsTakeFrame | src/photobooth/camera/worker.py:39-49 | however a frame is split, enough reads of the worker get all of it and stop at its end |
| CameraExchange.ClientReadsTakeFrame | src/photobooth/camera/client.py:69-71 | and so do enough reads of the client |
| CameraExchange.QuietExchangeSucceeds | src/photobooth/camera/client.py:61-83 | from every reachable state with the lock free and a connection that is up or can be dialled, a request is executed once and returns its response under every splitting of the two frames, and the link is ready again |
| CameraCodec.LawfulCodecExists | src/photobooth/camera/messages.py:107-120 | the law asked of the codec can be met for all messages |
| CameraLink.ExceptionsSurviveTheLink | src/photobooth/camera/client.py:85-89 | the exception and message the backend raised are what the caller sees; on the wire type "disconnected" is a lost camera and any other a plain error |
| CameraClients.CameraWorkerClient.Request | src/photobooth/camera/client.py:61-83 | the payload of the first frame that arrives, or an error after which no connection is kept; a kept one starts right behind the answer |
| CameraClients.CameraWorkerClient.Open | src/photobooth/camera/client.py:45-51 | dials only without a connection |
| CameraClients.CutAnswerRefused | src/photobooth/camera/client.py:69-82 | a cut-off answer is accepted if and only if the whole frame arrived |
| CameraClients.OversizedAnswerRefused | src/photobooth/camera/client.py:69-79 | an answer that announces more than 64 MiB is refused from its header alone |
| GphotoBackends.AwaitFindsFirstFile | src/photobooth/camera/gphoto.py:161-175 | the wait returns the first file of the events it waits for, or none |
| GphotoBackends.DrainEmptiesQueue | src/photobooth/camera/gphoto.py:133-152 | what outlives the drain does not depend on what was queued |
| GphotoBackends.FileFoundInTime | src/photobooth/camera/gphoto.py:161-181 | a file is found if and only if the poll that returns it begins before the deadline |
| GphotoBackends.LoneFile | src/photobooth/camera/gphoto.py:47-48 | a file that is all the camera reports is found up to ten seconds after the release and not later |
| GphotoBackends.LoneEvent | src/photobooth/camera/gphoto.py:148-152 | an event more than ten milliseconds away outlives the drain, and one that is not is drained |
| GphotoBackends.MergeTakesFirstFile | src/photobooth/camera/gphoto.py:158-173 | of two releases under way the first file is the own one if and only if no other comes before it |
| GphotoBackends.CaptureGetsOwnFile | src/photobooth/camera/gphoto.py:154-181 | unless the camera is lost a capture succeeds if and only if the poll of the first file begins in time; a successful one takes its own file if and only if no file that outlived the drain comes first |
| GphotoBackends.LossOnlyLoses | src/photobooth/camera/gphoto.py:157-180 | a camera lost while draining, at the release or while waiting stores no id and uses none up; a capture that is not lost ends as on a camera that never is |
| GphotoBackends.GphotoBackend.DrainStaleEvents | src/photobooth/camera/gphoto.py:133-152 | ends on every queue; unless the camera is lost meanwhile it leaves the queue empty, and of what is still to arrive what comes after the first pause of more than 10 ms |
| GphotoBackends.GphotoBackend.TriggerCapture | src/photobooth/camera/gphoto.py:154-181 | the method is the capture step of the runs below: drain, release, and the first file that arrives among what outlived the drain and what the release caused, with the camera lost at any of its calls |
| GphotoBackends.GphotoBackend.DownloadFull | src/photobooth/camera/gphoto.py:197-209 | the stored file once, and which error when not; the id is forgotten even if the transfer fails, and no other id is touched |
| GphotoBackends.GphotoBackend.Disconnect | src/photobooth/camera/gphoto.py:96-100 | no camera and no stored ids |
| GphotoRuns.WhoseFile | src/photobooth/camera/gphoto.py:133-209 | in every run of captures, timeouts, losses, disconnects, waits and shutter presses, overlapping or not, the file under an id is the first own file exactly when nothing that outlived the drain came first, else that; downloads return it, and no id twice |
| GphotoRuns.NoStalePicture | src/photobooth/camera/gphoto.py:133-209 | when no earlier file outlives a drain, every id stands for the first file of its own trigger and is downloaded as such |
| GphotoRuns.WaitingSettles | src/photobooth/camera/gphoto.py:133-152 | once everything earlier has arrived the drain takes all of it |
| GphotoBackends.UndrainedTakesStaleFile | src/photobooth/camera/gphoto.py:133-152 | without the drain the first file queued is taken, whatever the trigger produces; with no file queued the result is as drained |
| Geometry.PlacementFits | src/photobooth/pipeline/compositor.py:77-102 | the crop lies in the resized image and the paste in the slot; cover and fill fill it, contain touches it on an axis |
| Geometry.PlacementKeepsShape | src/photobooth/pipeline/compositor.py:80-102 | cover and contain use one scale for both axes, the least that covers or the greatest that fits, so one axis has the slot's length; each dimension is the nearest pixel to it; crop and paste are centred to within a pixel; fill has the slot's size |
| Geometry.NoOtherScale | src/photobooth/pipeline/compositor.py:87-98 | a smaller scale than cover's leaves a gap, a greater one than contain's sticks out |
| Geometry.RoundHalfIsRound | src/photobooth/pipeline/compositor.py:89-90 | the integer form of `round(n / 2)` is half-to-even rounding and stays within 0..n |
| Geometry.CanvasWithinHalfPixel | src/photobooth/pipeline/template.py:38-44 | the canvas is within half a pixel of its size on paper, on both axes |
| Geometry.FirstSlotOutOfBounds | src/photobooth/pipeline/template.py:141-148 | the first slot beyond a far edge, or none if and only if there is none |
| Geometry.AcceptedIffInside | src/photobooth/pipeline/template.py:143-150 | a slot whose corner is on the canvas is accepted exactly when it lies inside, edges included |
| Geometry.AcceptedSlotPaintsInside | src/photobooth/pipeline/template.py:143-150 | an accepted slot paints inside the canvas for every source if and only if its corner is not negative |
| Geometry.ScaledVariantEdges | src/photobooth/pipeline/compositor.py:290-294 | the long edge is exact; the short one within half a pixel of proportional if and only if that is at least half a pixel |
| Painting.PaintAllShowsTop | src/photobooth/pipeline/compositor.py:209-238 | the fold shows at each pixel the last ink that hides what is below it, blended with what lies above; so the last opaque one where nothing lies above, the background where nothing is painted; the canvas keeps its size |
| Painting.OpaqueHides | src/photobooth/pipeline/compositor.py:211-236 | nothing below an opaque ink can be seen |
| Painting.SlotShowsSource | src/photobooth/pipeline/compositor.py:211-216 | a source is laid centred over its slot, every pixel of the slot it reaches shows the pixel of it that lies there, and nothing outside is painted |
| Painting.BlankCanvas | src/photobooth/pipeline/compositor.py:73-74 | the canvas starts as background only, as wide and as high as it says |
| Painting.MixingBlendsOver | src/photobooth/pipeline/compositor.py:216 | what is asked of the blending is met by linear mixing |
| Painting.Composite | src/photobooth/pipeline/compositor.py:192-238 | an error with both counts on a mismatch; else every pixel shows the last slot covering it, with the overlays above it blended by their opacity |
| Painting.OnlyOnePaints | src/photobooth/pipeline/compositor.py:211-216 | of two disjoint slots at most one paints a given pixel |
| Painting.OrderDoesNotMatter | src/photobooth/pipeline/compositor.py:211-216 | with disjoint slots every permutation of the slot/source pairs gives the same picture |
| Placeholders.MatchIsPattern | src/photobooth/config/event.py:21 | the matcher accepts exactly `{event.`, one or more word characters, `}` |
| Placeholders.WordCharacters | src/photobooth/config/event.py:21 | word characters by code point |
| Placeholders.ScanPrintsBack | src/photobooth/config/event.py:134-149 | the literals and placeholders of a text print back to it |
| Placeholders.ScanFindsAll | src/photobooth/config/event.py:134-149 | wherever the pattern matches, the scan has a placeholder there |
| Placeholders.FoundIsOccurrence | src/photobooth/config/event.py:134-149 | and every placeholder of the scan is an occurrence of the pattern at its place |
| Placeholders.ResolveIsOnePass | src/photobooth/config/event.py:134-149 | succeeds if and only if every key of the original text has a value, well-known fields first; inserted text is not scanned again |
| Placeholders.ResolveNamesFirstFailure | src/photobooth/config/event.py:144-147 | otherwise the error names the first key without a value |
| Placeholders.EscapeIsPerCharacter | src/photobooth/pipeline/compositor.py:119-122 | the three replacements act on each character by itself |
| Placeholders.EscapedMarkup | src/photobooth/pipeline/compositor.py:119-122 | which entity each markup character becomes, and that any other stands for itself |
| Placeholders.EscapeRoundTrip | src/photobooth/pipeline/compositor.py:119-122 | unescaping gives the text back, and no markup character is left bare (section 2.4 of XML 1.0) |
| IsoTime.FractionOrder | src/photobooth/storage/repos.py:89-101 | stamps with and without a fraction compare as their microseconds |
| IsoTime.TextOrderIsTimeOrder | src/photobooth/storage/repos.py:89-101 | for all datetimes `<` on the text is `<` on the Gregorian instant |
| IsoTime.IsoIsInjective | src/photobooth/storage/queue.py:76-89 | equal stamps mean equal datetimes, so ORDER BY loses nothing |
| IsoTime.IsoReadsBack | src/photobooth/storage/repos.py:79-82 | a reader of ISO 8601 stamps gets every field back from the text |
| IsoTime.OrdinalIsRataDie | src/photobooth/storage/retention.py:97 | the count of days and of microseconds is that of the Gregorian calendar, by a closed form without month lengths |
| IsoTime.KnownDays | src/photobooth/storage/retention.py:97 | the closed form on dates everyone can look up |
| IsoTime.MinusDaysIsThatLongAgo | src/photobooth/storage/retention.py:97-98 | the cutoff is exactly that many Gregorian days before now, at the same time of day, and exists if and only if the calendar reaches that far |
| Retention.CaptureStore.ListOlderThan | src/photobooth/storage/repos.py:89-101 | exactly the ids older than the cutoff, each once |
| Retention.CaptureStore.DeleteCapture | src/photobooth/storage/retention.py:53-74 | `<id>.jpg` and `<id>-preview.jpg` except undeletable ones, and the row in any case; nothing else |
| Retention.CaptureStore.RunSweepOnce | src/photobooth/storage/retention.py:77-106 | disabled: 0 and no change; else exactly the rows older than the cutoff and their files go, and their number is returned |
| Retention.SweepKeepsTheYoung | src/photobooth/storage/retention.py:97-100 | a row stays if and only if its capture is at most max_age_days times 86,400 seconds old on the Gregorian time line |
| Retention.SharedPath | src/photobooth/storage/retention.py:60-61 | two captures share a file name if and only if one id is the other with `-preview` |
| Retention.KeptFilesAreSafe | src/photobooth/storage/retention.py:60-63 | no file of a kept capture is unlinked if and only if no kept and swept id differ by `-preview` |
| Retention.FilesLeft | src/photobooth/storage/retention.py:60-74 | a file of a swept capture stays if and only if it could not be unlinked; a kept capture's files stay |
| Retention.ForeignFilesStay | src/photobooth/storage/retention.py:60-63 | files that belong to no capture are untouched |
| Retention.CountIsRowsRemoved | src/photobooth/storage/retention.py:106 | the number returned plus the rows left is the rows there were |
| Retention.SweepsCompose | src/photobooth/storage/retention.py:123-133 | a sweep followed by one at the same or a later cutoff removes the rows of the later one alone, whatever can be unlinked when; on disk the second tries only what has become stale since |
| Retention.SecondSweepRemovesNone | src/photobooth/storage/retention.py:100-106 | a second sweep at the same cutoff removes nothing, even if files have become deletable |
| Retention.LockedFileIsOrphaned | src/photobooth/storage/retention.py:60-74 | a file of a swept capture stays for good, through any later sweeps and captures, if and only if it could not be unlinked in the sweep that took its row |
| Retention.OrphanStays | src/photobooth/storage/retention.py:100-104 | no sweep ever unlinks a file that no row owns |

## Left out

- JobQueues.JobQueue.Fail: `2 ** (attempts - 1)` as a float overflows beyond about a thousand attempts; the model multiplies exact numbers.
- JobTable.Candidates: rows created at the same instant keep table order, which SQLite does not promise; the bypass bound asks for increasing creation times.
- Geometry.PlacementFits: ratios are exact, so float rounding error in a scale is not modelled; slots and canvases of no positive size are not either.
- Painting.Composite: how libvips resamples a pixel and rounds a blend of a partly opaque one are parameters; colour spaces are absent.
- GphotoBackends.GphotoBackend.TriggerCapture: a release that raises is taken to make nothing arrive.
- LinkSafety.EachRequestGetsItsOwnAnswer: the message codec is any codec that decodes what it encoded, not msgpack itself; no caller is cancelled inside a request and none calls `close()` during one.
- Crash recovery: a job left claimed by a process that died stays claimed, and the program never looks at `claimed_at`; commits and the journal are taken as atomic.
- A worker process that dies of an exception that is not a camera error, and its restart by the supervisor.
- In `capture()`, exceptions other than camera errors and a failed render, such as a full disk while a file is written.
- Cancellation of `capture()` and of worker tasks.
- Delivery of events to WebSocket clients: a broadcast is a suspension point and an entry in a log.
- The countdown's length, and how modes select a template.
- `download_preview`, `connect` and `reconnect` of the gphoto backend, beyond being connected or not.
- Anchors of text overlays and the placement of logos: one-line arithmetic.
- The text of print jobs' JSON, and `list_dead` and `list_pending`, which filter by status.
- The sleep loop around the sweep; the theorem that sweeps compose stands for it.
- Ids with path separators: ids are uuids in hexadecimal.
- HTTP routes, PIN login, the admin pages, the frontend, uploads over SFTP and S3, CUPS, spans, logging and health checks: thin wrappers and foreign calls.
