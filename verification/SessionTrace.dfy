/** One capture() driven to its end, and the events an undisturbed one broadcasts. */
module SessionTrace {
  import opened Results
  import opened SessionProtocol
  import opened SessionSafety

  /** What another coroutine does while capture() is suspended: a dismiss(), an arm(), or a step of a capture() of
      its own, from its start or from the await it is suspended at to the next. */
  datatype Intrusion =
    | DismissCall
    | ArmCall(slots: Option<SlotCount>)
    | ArmCallRaises
    | CaptureCall
    | WakeOther(k: nat, otherReply: Reply)

  /** What happens while capture() is suspended, and what it is resumed with. */
  datatype Turn = Turn(intrusions: seq<Intrusion>, reply: Reply)

  /** The world around one capture(): its turn at every await of every shot. */
  type Surroundings = (nat, Point) -> Turn

  function Intruded(b: Booth, call: Intrusion): Booth {
    match call
    case DismissCall => Dismiss(b)
    case ArmCall(slots) => Arm(b, slots)
    case ArmCallRaises => ArmRaising(b)
    case CaptureCall =>
      var (c, g) := Begin(b);
      c.(others := b.others + [g])
    case WakeOther(k, reply) =>
      if k < |b.others| then
        var (c, g) := Resume(b, b.others[k], reply);
        c.(others := b.others[k := g])
      else b
  }

  function IntrudedAll(b: Booth, calls: seq<Intrusion>): Booth
    decreases |calls|
  {
    if |calls| == 0 then b else IntrudedAll(Intruded(b, calls[0]), calls[1..])
  }

  function PointRank(p: Point): nat {
    match p
    case CountdownStateSent => 14
    case CountdownSent => 13
    case Sleeping => 12
    case WaitingForCamera => 11
    case CapturingStateSent => 10
    case Triggering => 9
    case FetchingPreview => 8
    case PreviewSent => 7
    case FetchingFull => 6
    case FullSent => 5
    case Rendering => 4
    case CompositeSent => 3
    case FailureSent(_) => 2
    case IdleStateSent(_) => 1
    case ReviewStateSent => 1
    case Returned => 0
    case Raised(_) => 0
  }

  function ShotsLeft(f: Frame): nat {
    if f.shotIndex < f.shotCount then f.shotCount - f.shotIndex else 0
  }

  /** Every resumption brings a capture closer to its end. */
  lemma ResumeProgresses(b: Booth, f: Frame, r: Reply)
    requires !Finished(f)
    ensures var g := Resume(b, f, r).1;
            g.shotCount == f.shotCount &&
            (ShotsLeft(g) < ShotsLeft(f) || (ShotsLeft(g) == ShotsLeft(f) && PointRank(g.point) < PointRank(f.point)))
  {
  }

  /** capture() from where it is suspended to its end; that this is a function says it always ends. */
  function Drive(b: Booth, f: Frame, env: Surroundings): (Booth, Frame)
    decreases ShotsLeft(f), PointRank(f.point)
  {
    if Finished(f) then (b, f)
    else
      var turn := env(f.shotIndex, f.point);
      ResumeProgresses(IntrudedAll(b, turn.intrusions), f, turn.reply);
      var (c, g) := Resume(IntrudedAll(b, turn.intrusions), f, turn.reply);
      Drive(c, g, env)
  }

  function DriveFrom(bf: (Booth, Frame), env: Surroundings): (Booth, Frame) {
    Drive(bf.0, bf.1, env)
  }

  // ---------------------------------------------------------------- drives are runs

  function ActionOf(call: Intrusion): Action {
    match call
    case DismissCall => DismissNow
    case ArmCall(slots) => ArmOk(slots)
    case ArmCallRaises => ArmRaises
    case CaptureCall => StartCapture
    case WakeOther(k, reply) => Wake(k + 1, reply)
  }

  function ActionsOf(calls: seq<Intrusion>): (r: seq<Action>)
    ensures |r| == |calls|
    ensures forall i | 0 <= i < |calls| :: r[i] == ActionOf(calls[i])
  {
    if |calls| == 0 then [] else [ActionOf(calls[0])] + ActionsOf(calls[1..])
  }

  function DriveActions(b: Booth, f: Frame, env: Surroundings): seq<Action>
    decreases ShotsLeft(f), PointRank(f.point)
  {
    if Finished(f) then []
    else
      var turn := env(f.shotIndex, f.point);
      ResumeProgresses(IntrudedAll(b, turn.intrusions), f, turn.reply);
      var (c, g) := Resume(IntrudedAll(b, turn.intrusions), f, turn.reply);
      ActionsOf(turn.intrusions) + [Wake(0, turn.reply)] + DriveActions(c, g, env)
  }

  lemma {:induction false} RunConcat(w: World, first: seq<Action>, second: seq<Action>)
    ensures Run(w, first + second) == Run(Run(w, first), second)
    decreases |first|
  {
    if |first| == 0 {
      assert first + second == second;
    } else {
      assert (first + second)[1..] == first[1..] + second;
      RunConcat(Step(w, first[0]), first[1..], second);
    }
  }

  // ---------------------------------------------------------------- one capture among others

  /** The booth with the capture that is followed put back among the others. */
  function Lift(b: Booth, f: Frame): World {
    World(Alone(b), [f] + b.others)
  }

  function Alone(b: Booth): Booth {
    b.(others := [])
  }

  /** A step of one capture neither depends on the record of the others nor changes it. */
  ghost predicate Apart(b: Booth, alone: (Booth, Frame), among: (Booth, Frame)) {
    alone == (Alone(among.0), among.1) && among.0.others == b.others && among.0.queued == b.queued
  }

  lemma DeliverApart(b: Booth, f: Frame, id: Id)
    ensures Apart(b, Deliver(Alone(b), f, id), Deliver(b, f, id))
  {
  }

  lemma NextShotApart(b: Booth, f: Frame)
    ensures Apart(b, NextShot(Alone(b), f), NextShot(b, f))
  {
    if f.shotIndex >= f.shotCount && (!b.templated || |f.captureIds| == 1) && |f.captureIds| > 0 {
      DeliverApart(b, f, f.captureIds[0]);
    }
  }

  lemma CallApart(b: Booth, f: Frame, r: Reply)
    requires AtFallibleCall(f)
    ensures Apart(b, Resume(Alone(b), f, r), Resume(b, f, r))
  {
    if f.point.Triggering? {
      assert Resume(b, f, r) == TriggerReturned(b, f, r) && Resume(Alone(b), f, r) == TriggerReturned(Alone(b), f, r);
    } else if f.point.FetchingPreview? {
      assert Resume(b, f, r) == PreviewReturned(b, f, r) && Resume(Alone(b), f, r) == PreviewReturned(Alone(b), f, r);
    } else if f.point.FetchingFull? {
      assert Resume(b, f, r) == FullReturned(b, f, r) && Resume(Alone(b), f, r) == FullReturned(Alone(b), f, r);
    } else {
      assert Resume(b, f, r) == RenderReturned(b, f, r) && Resume(Alone(b), f, r) == RenderReturned(Alone(b), f, r);
    }
  }

  lemma EnterApart(b: Booth, f: Frame)
    ensures Apart(b, EnterCapturing(Alone(b), f), EnterCapturing(b, f))
  {
  }

  lemma ResumeApart(b: Booth, f: Frame, r: Reply)
    ensures Apart(b, Resume(Alone(b), f, r), Resume(b, f, r))
  {
    if AtFallibleCall(f) {
      CallApart(b, f, r);
    } else if f.point.FullSent? {
      NextShotApart(b, f.(shotIndex := f.shotIndex + 1));
    } else if f.point.CompositeSent? {
      DeliverApart(b, f, f.current);
    } else if f.point.Sleeping? || f.point.WaitingForCamera? {
      EnterApart(b, f);
    } else {
      QuietApart(b, f, r);
    }
  }

  lemma QuietApart(b: Booth, f: Frame, r: Reply)
    requires !AtFallibleCall(f) && !f.point.FullSent? && !f.point.CompositeSent?
    requires !f.point.Sleeping? && !f.point.WaitingForCamera?
    ensures Apart(b, Resume(Alone(b), f, r), Resume(b, f, r))
  {
    if f.point.FailureSent? {
      assert Resume(b, f, r) == FailureBroadcast(b, f, f.point.message);
    }
  }

  lemma CaptureCallIsStep(b: Booth, f: Frame)
    ensures Step(Lift(b, f), StartCapture) == Lift(Intruded(b, CaptureCall), f)
  {
    NextShotApart(b, FirstFrame(b));
    assert [f] + b.others + [Begin(b).1] == [f] + (b.others + [Begin(b).1]);
  }

  lemma WakeOtherIsStep(b: Booth, f: Frame, k: nat, r: Reply)
    ensures Step(Lift(b, f), Wake(k + 1, r)) == Lift(Intruded(b, WakeOther(k, r)), f)
  {
    if k < |b.others| {
      ResumeApart(b, b.others[k], r);
      var g := Resume(b, b.others[k], r).1;
      assert ([f] + b.others)[k + 1 := g] == [f] + b.others[k := g];
    }
  }

  lemma IntrusionIsStep(b: Booth, f: Frame, call: Intrusion)
    ensures Step(Lift(b, f), ActionOf(call)) == Lift(Intruded(b, call), f)
  {
    match call
    case CaptureCall => CaptureCallIsStep(b, f);
    case WakeOther(k, reply) => WakeOtherIsStep(b, f, k, reply);
    case _ =>
  }

  lemma {:induction false} IntrusionsAreRun(b: Booth, f: Frame, calls: seq<Intrusion>)
    ensures Run(Lift(b, f), ActionsOf(calls)) == Lift(IntrudedAll(b, calls), f)
    decreases |calls|
  {
    if |calls| > 0 {
      assert ActionsOf(calls)[1..] == ActionsOf(calls[1..]);
      IntrusionIsStep(b, f, calls[0]);
      IntrusionsAreRun(Intruded(b, calls[0]), f, calls[1..]);
    }
  }

  lemma WakeIsStep(b: Booth, f: Frame, r: Reply)
    ensures var (c, g) := Resume(b, f, r);
            Run(Lift(b, f), [Wake(0, r)]) == Lift(c, g)
  {
    var (c, g) := Resume(b, f, r);
    ResumeApart(b, f, r);
    assert Run(Lift(b, f), [Wake(0, r)]) == Step(Lift(b, f), Wake(0, r));
    assert ([f] + b.others)[0 := g] == [g] + b.others;
  }

  /** Driving a capture among dismisses, arms and other captures is a run of the protocol, so what is proved of all
      runs holds of it. */
  lemma {:induction false} DriveIsRun(b: Booth, f: Frame, env: Surroundings)
    ensures var (c, g) := Drive(b, f, env);
            Finished(g) && Run(Lift(b, f), DriveActions(b, f, env)) == Lift(c, g)
    decreases ShotsLeft(f), PointRank(f.point)
  {
    if !Finished(f) {
      var turn := env(f.shotIndex, f.point);
      var d := IntrudedAll(b, turn.intrusions);
      ResumeProgresses(d, f, turn.reply);
      var (c, g) := Resume(d, f, turn.reply);
      DriveIsRun(c, g, env);
      IntrusionsAreRun(b, f, turn.intrusions);
      RunConcat(Lift(b, f), ActionsOf(turn.intrusions), [Wake(0, turn.reply)]);
      RunConcat(Lift(b, f), ActionsOf(turn.intrusions) + [Wake(0, turn.reply)], DriveActions(c, g, env));
      WakeIsStep(d, f, turn.reply);
    }
  }

  /** Nobody arms the booth or captures while capture() runs. */
  ghost predicate OnlyDismisses(env: Surroundings) {
    forall i: nat, p: Point, k | 0 <= k < |env(i, p).intrusions| :: env(i, p).intrusions[k].DismissCall?
  }

  /** Nobody else does anything while capture() runs. */
  ghost predicate Undisturbed(env: Surroundings) {
    forall i: nat, p: Point :: env(i, p).intrusions == []
  }

  /** Then the run is one of the single-capture runs, and without a dismiss if there is none. */
  lemma {:induction false} DriveIsSolo(b: Booth, f: Frame, env: Surroundings)
    requires OnlyDismisses(env)
    ensures AllSolo(DriveActions(b, f, env))
    ensures Undisturbed(env) ==> !Dismissed(DriveActions(b, f, env))
    decreases ShotsLeft(f), PointRank(f.point)
  {
    if !Finished(f) {
      var turn := env(f.shotIndex, f.point);
      var d := IntrudedAll(b, turn.intrusions);
      ResumeProgresses(d, f, turn.reply);
      var (c, g) := Resume(d, f, turn.reply);
      DriveIsSolo(c, g, env);
      var first, rest := ActionsOf(turn.intrusions) + [Wake(0, turn.reply)], DriveActions(c, g, env);
      assert DriveActions(b, f, env) == first + rest;
      assert AllSolo(first);
      if Undisturbed(env) {
        assert first == [Wake(0, turn.reply)];
        DismissedLater(first + rest);
        assert (first + rest)[1..] == rest;
      }
    }
  }

  /** How a single capture() that started in booth `b0` is over. */
  ghost predicate EndsInProtocol(b0: Booth, c: Booth, g: Frame) {
    && Finished(g) && c.cameraIdle
    && (g.point == Returned ==>
          && |g.captureIds| == b0.shotCount && c.camera == b0.camera + Pairs(g.captureIds)
          && FilesWritten(c, g.captureIds))
    && (g.point != Returned ==> c.state == IDLE || (g.point == Raised(RenderFault) && c.state == CAPTURING))
    && (c.state == REVIEW ==> g.point == Returned)
  }

  lemma ProtocolAtEnd(b: Booth, slots: Option<SlotCount>, actions: seq<Action>, w: World)
    requires b.state == IDLE && b.cameraIdle && AllSolo(actions)
    requires w == Run(Step(World(Arm(b, slots), []), StartCapture), actions)
    requires |w.captures| == 1 && Finished(w.captures[0])
    ensures EndsInProtocol(Arm(b, slots), w.booth, w.captures[0])
    ensures !Dismissed(actions) ==> w.booth.state == ExpectedState(w.captures[0].point)
  {
    CaptureProtocol(b, slots, actions);
  }

  /** The capture protocol, for a single capture() driven to its end after an arm() that returned normally. */
  lemma {:induction false} CaptureEnds(b: Booth, slots: Option<SlotCount>, env: Surroundings)
    requires b.state == IDLE && b.cameraIdle && b.others == [] && OnlyDismisses(env)
    ensures var (c, g) := DriveFrom(Begin(Arm(b, slots)), env);
            && EndsInProtocol(Arm(b, slots), c, g)
            && (Undisturbed(env) ==> c.state == ExpectedState(g.point))
  {
    var (b1, f) := Begin(Arm(b, slots));
    var actions := DriveActions(b1, f, env);
    DriveIsRun(b1, f, env);
    DriveIsSolo(b1, f, env);
    NextShotApart(Arm(b, slots), FirstFrame(Arm(b, slots)));
    assert [] + [f] == [f] && [f] + [] == [f];
    assert Step(World(Arm(b, slots), []), StartCapture) == Lift(b1, f);
    var (c, g) := Drive(b1, f, env);
    SoloStaysAlone(b, slots, actions);
    ProtocolAtEnd(b, slots, actions, Lift(c, g));
  }

  lemma SoloStaysAlone(b: Booth, slots: Option<SlotCount>, actions: seq<Action>)
    requires b.state == IDLE && b.cameraIdle && AllSolo(actions)
    ensures |Run(Step(World(Arm(b, slots), []), StartCapture), actions).captures| == 1
  {
    CaptureProtocol(b, slots, actions);
  }

  // ---------------------------------------------------------------- the expected events

  /** How one shot went. */
  datatype Outcome =
    | TriggerFails(message: string)
    | PreviewFails(message: string)
    | DownloadFails(preview: bool, message: string)
    | Taken(preview: bool)

  function OutcomeOf(env: Surroundings, i: nat): Outcome {
    var trigger, thumb, full := env(i, Triggering).reply, env(i, FetchingPreview).reply, env(i, FetchingFull).reply;
    if trigger.fault.Some? then TriggerFails(trigger.fault.value)
    else if thumb.fault.Some? then PreviewFails(thumb.fault.value)
    else if full.fault.Some? then DownloadFails(thumb.hasPreview, full.fault.value)
    else Taken(thumb.hasPreview)
  }

  function Failure(session: Id, message: string): seq<Event> {
    [CaptureFailed(session, message), StateChanged(session, IDLE, None)]
  }

  function PreviewEvents(session: Id, id: Id, i: nat, n: nat, preview: bool): seq<Event> {
    if preview then [PreviewReady(session, id, i, n)] else []
  }

  function ShotEvents(session: Id, id: Id, i: nat, n: nat, outcome: Outcome): seq<Event> {
    CountdownEvents(session, i, n) +
    match outcome
    case TriggerFails(message) => Failure(session, message)
    case PreviewFails(message) => Failure(session, message)
    case DownloadFails(preview, message) => PreviewEvents(session, id, i, n, preview) + Failure(session, message)
    case Taken(preview) => PreviewEvents(session, id, i, n, preview) + [FullImageReady(session, id)]
  }

  /** The events after the last shot; `id` is the first unused id, `composed` tells that there is a composite. */
  function ReviewEvents(session: Id, id: Id, composed: bool, queued: bool, renderFails: bool): seq<Event> {
    if !composed then [StateChanged(session, REVIEW, if queued then Some(id) else None)]
    else if renderFails then []
    else [FullImageReady(session, id), StateChanged(session, REVIEW, if queued then Some(id + 1) else None)]
  }

  /** The events from shot `i` on; the shots use the ids from `id` on. */
  function ExpectedEvents(session: Id, id: Id, i: nat, n: nat, composed: bool, queued: bool,
                          outcomes: nat -> Outcome, renderFails: bool): seq<Event>
    decreases if i < n then n - i else 0
  {
    if i >= n then ReviewEvents(session, id, composed, queued, renderFails)
    else
      ShotEvents(session, id, i, n, outcomes(i)) +
      (if outcomes(i).Taken?
       then ExpectedEvents(session, id + 1, i + 1, n, composed, queued, outcomes, renderFails) else [])
  }

  /** Several shots make a composite if the session knows a template; after an arm() that raised it may not. */
  predicate Composes(b: Booth, n: nat) {
    b.templated && n > 1
  }

  ghost function Outcomes(env: Surroundings): nat -> Outcome {
    (i: nat) => OutcomeOf(env, i)
  }

  /** The booth at the head of the loop, before shot `f.shotIndex`. */
  ghost predicate AtLoopHead(b: Booth, f: Frame) {
    && b.cameraIdle && |f.captureIds| == f.shotIndex <= f.shotCount
    && b.state == (if f.shotIndex == 0 then ARMED else CAPTURING)
  }

  lemma DriveOnce(b: Booth, f: Frame, env: Surroundings)
    requires Undisturbed(env) && !Finished(f)
    ensures Drive(b, f, env) == DriveFrom(Resume(b, f, env(f.shotIndex, f.point).reply), env)
  {
    assert env(f.shotIndex, f.point).intrusions == [];
  }

  function CountdownEvents(session: Id, i: nat, n: nat): seq<Event> {
    [StateChanged(session, COUNTDOWN, None), CountdownStarted(session, i, n), StateChanged(session, CAPTURING, None)]
  }

  /** The booth when the shutter is about to be triggered, from the booth at the head of the loop. */
  function AtTrigger(b: Booth, f: Frame): Booth {
    b.(state := CAPTURING,
       sessions := UpdateState(UpdateState(b.sessions, b.sessionId, COUNTDOWN), b.sessionId, CAPTURING),
       log := b.log + CountdownEvents(b.sessionId, f.shotIndex, f.shotCount))
  }

  /** From the head of the loop to the end of the countdown. */
  lemma TraceToSleep(b: Booth, f: Frame, env: Surroundings)
    requires Undisturbed(env) && AtLoopHead(b, f) && f.shotIndex < f.shotCount
    ensures var c := b.(state := COUNTDOWN, sessions := UpdateState(b.sessions, b.sessionId, COUNTDOWN),
                        log := b.log + [StateChanged(b.sessionId, COUNTDOWN, None)] +
                                       [CountdownStarted(b.sessionId, f.shotIndex, f.shotCount)]);
            DriveFrom(NextShot(b, f), env) == Drive(c, At(f, Sleeping), env)
  {
    var (b1, f1) := NextShot(b, f);
    DriveOnce(b1, f1, env);
    var (b2, f2) := Resume(b1, f1, env(f1.shotIndex, f1.point).reply);
    DriveOnce(b2, f2, env);
  }

  /** From the head of the loop to the trigger. */
  lemma TraceToTrigger(b: Booth, f: Frame, env: Surroundings)
    requires Undisturbed(env) && AtLoopHead(b, f) && f.shotIndex < f.shotCount
    ensures DriveFrom(NextShot(b, f), env) == Drive(AtTrigger(b, f), At(f, Triggering), env)
  {
    var b3 := b.(state := COUNTDOWN, sessions := UpdateState(b.sessions, b.sessionId, COUNTDOWN),
                 log := b.log + [StateChanged(b.sessionId, COUNTDOWN, None)] +
                                [CountdownStarted(b.sessionId, f.shotIndex, f.shotCount)]);
    TraceToSleep(b, f, env);
    DriveOnce(b3, At(f, Sleeping), env);
    var (b4, f4) := Resume(b3, At(f, Sleeping), env(f.shotIndex, Sleeping).reply);
    DriveOnce(b4, f4, env);
    assert b4.log == AtTrigger(b, f).log;
    assert b4 == AtTrigger(b, f);
  }

  lemma TraceOfFailure(b: Booth, f: Frame, env: Surroundings, message: string) returns (c: Booth, g: Frame)
    requires Undisturbed(env) && b.state == CAPTURING
    ensures DriveFrom(FailShot(b, f, message), env) == (c, g)
    ensures c.log == b.log + Failure(b.sessionId, message) && g.point == Raised(CameraFault(message))
  {
    var (b1, f1) := FailShot(b, f, message);
    DriveOnce(b1, f1, env);
    var (b2, f2) := Resume(b1, f1, env(f1.shotIndex, f1.point).reply);
    DriveOnce(b2, f2, env);
    var (b3, f3) := Resume(b2, f2, env(f2.shotIndex, f2.point).reply);
    assert Drive(b3, f3, env) == (b3, f3);
    c, g := b3, f3;
  }

  predicate CameraFailed(f: Frame) {
    f.point.Raised? && f.point.exit.CameraFault?
  }

  /** The shot of frame `f` is taken: booth `c` and frame `g` are at the head of the loop for the next. */
  ghost predicate ShotDone(b: Booth, f: Frame, c: Booth, g: Frame) {
    && c.sessionId == b.sessionId && c.templated == b.templated && c.queued == b.queued
    && c.state == CAPTURING && c.cameraIdle
    && g.shotIndex == f.shotIndex + 1 == |g.captureIds| && g.shotCount == f.shotCount
  }

  /** From the trigger to the next head of the loop, or to the end of a failed capture. */
  lemma TraceOfShot(b: Booth, f: Frame, env: Surroundings) returns (c: Booth, g: Frame)
    requires Undisturbed(env) && f.point.Triggering? && b.state == CAPTURING && b.cameraIdle
    requires |f.captureIds| == f.shotIndex < f.shotCount
    ensures c.log == b.log +
      ShotEvents(b.sessionId, b.nextId, f.shotIndex, f.shotCount, OutcomeOf(env, f.shotIndex))[3..]
    ensures if OutcomeOf(env, f.shotIndex).Taken?
            then Drive(b, f, env) == DriveFrom(NextShot(c, g), env) && ShotDone(b, f, c, g) && c.nextId == b.nextId + 1
            else Drive(b, f, env) == (c, g) && CameraFailed(g)
  {
    var outcome := OutcomeOf(env, f.shotIndex);
    DriveOnce(b, f, env);
    if outcome.TriggerFails? {
      c, g := TraceOfFailure(b, f, env, outcome.message);
    } else {
      var (b1, f1) := TriggerReturned(b, f, env(f.shotIndex, Triggering).reply);
      c, g := TraceAfterTrigger(b1, f1, env);
    }
  }

  lemma TraceAfterTrigger(b: Booth, f: Frame, env: Surroundings) returns (c: Booth, g: Frame)
    requires Undisturbed(env) && f.point.FetchingPreview? && b.state == CAPTURING && b.cameraIdle
    requires |f.captureIds| == f.shotIndex < f.shotCount && !OutcomeOf(env, f.shotIndex).TriggerFails?
    ensures c.log == b.log +
      ShotEvents(b.sessionId, f.current, f.shotIndex, f.shotCount, OutcomeOf(env, f.shotIndex))[3..]
    ensures if OutcomeOf(env, f.shotIndex).Taken?
            then Drive(b, f, env) == DriveFrom(NextShot(c, g), env) && ShotDone(b, f, c, g) && c.nextId == b.nextId
            else Drive(b, f, env) == (c, g) && CameraFailed(g)
  {
    var outcome := OutcomeOf(env, f.shotIndex);
    if outcome.PreviewFails? {
      DriveOnce(b, f, env);
      c, g := TraceOfFailure(b, f, env, outcome.message);
    } else {
      var fetched := TraceOfPreview(b, f, env);
      c, g := TraceAfterPreview(fetched.0, fetched.1, env);
    }
  }

  lemma TraceAfterPreview(b: Booth, f: Frame, env: Surroundings) returns (c: Booth, g: Frame)
    requires Undisturbed(env) && f.point.FetchingFull? && b.state == CAPTURING
    requires |f.captureIds| == f.shotIndex < f.shotCount
    requires OutcomeOf(env, f.shotIndex).DownloadFails? || OutcomeOf(env, f.shotIndex).Taken?
    ensures var full := env(f.shotIndex, FetchingFull).reply.fault;
            if full.None?
            then && c.log == b.log + [FullImageReady(b.sessionId, f.current)]
                 && Drive(b, f, env) == DriveFrom(NextShot(c, g), env)
                 && ShotDone(b, f, c, g) && c.nextId == b.nextId
            else && c.log == b.log + Failure(b.sessionId, full.value)
                 && Drive(b, f, env) == (c, g) && CameraFailed(g)
  {
    var reply := env(f.shotIndex, FetchingFull).reply;
    DriveOnce(b, f, env);
    if reply.fault.Some? {
      c, g := TraceOfFailure(b, f, env, reply.fault.value);
    } else {
      var (b1, f1) := FullReturned(b, f, reply);
      DriveOnce(b1, f1, env);
      c, g := b1, f1.(shotIndex := f.shotIndex + 1);
    }
  }

  lemma TraceOfPreview(b: Booth, f: Frame, env: Surroundings) returns (r: (Booth, Frame))
    requires Undisturbed(env) && f.point.FetchingPreview? && env(f.shotIndex, FetchingPreview).reply.fault.None?
    ensures var preview := env(f.shotIndex, FetchingPreview).reply.hasPreview;
            && r.1 == At(f, FetchingFull)
            && r.0 == b.(cameraIdle := false,
                         files := if preview then b.files + {Preview(f.current)} else b.files,
                         log := b.log + PreviewEvents(b.sessionId, f.current, f.shotIndex, f.shotCount, preview))
            && Drive(b, f, env) == Drive(r.0, r.1, env)
  {
    var reply := env(f.shotIndex, FetchingPreview).reply;
    DriveOnce(b, f, env);
    r := PreviewReturned(b, f, reply);
    if reply.hasPreview {
      DriveOnce(r.0, r.1, env);
      r := Resume(r.0, r.1, env(f.shotIndex, PreviewSent).reply);
    } else {
      assert b.log + [] == b.log;
    }
  }

  lemma TraceOfReview(b: Booth, f: Frame, env: Surroundings)
    requires Undisturbed(env) && AtLoopHead(b, f) && f.shotIndex == f.shotCount
    ensures var (c, g) := DriveFrom(NextShot(b, f), env);
            var renderFails := env(f.shotCount, Rendering).reply.fault.Some?;
            && c.log == b.log + ReviewEvents(b.sessionId, b.nextId, Composes(b, f.shotCount), b.queued, renderFails)
            && g.point == (if !Composes(b, f.shotCount) || !renderFails then Returned else Raised(RenderFault))
  {
    var (b1, f1) := NextShot(b, f);
    DriveOnce(b1, f1, env);
    var (b2, f2) := Resume(b1, f1, env(f.shotCount, f1.point).reply);
    if Composes(b, f.shotCount) {
      if env(f.shotCount, Rendering).reply.fault.None? {
        DriveOnce(b2, f2, env);
        var (b3, f3) := Resume(b2, f2, env(f.shotCount, f2.point).reply);
        DriveOnce(b3, f3, env);
        assert b3.log == b.log + ReviewEvents(b.sessionId, b.nextId, true, b.queued, false);
      }
    }
  }

  /** One pass through the loop, from its head. */
  lemma TraceOfPass(b: Booth, f: Frame, env: Surroundings) returns (c: Booth, g: Frame)
    requires Undisturbed(env) && AtLoopHead(b, f) && f.shotIndex < f.shotCount
    ensures c.log == b.log + ShotEvents(b.sessionId, b.nextId, f.shotIndex, f.shotCount, OutcomeOf(env, f.shotIndex))
    ensures if OutcomeOf(env, f.shotIndex).Taken?
            then && DriveFrom(NextShot(b, f), env) == DriveFrom(NextShot(c, g), env)
                 && ShotDone(b, f, c, g) && c.nextId == b.nextId + 1
            else DriveFrom(NextShot(b, f), env) == (c, g) && CameraFailed(g)
  {
    TraceToTrigger(b, f, env);
    var head := CountdownEvents(b.sessionId, f.shotIndex, f.shotCount);
    c, g := TraceOfShot(AtTrigger(b, f), At(f, Triggering), env);
    var events := ShotEvents(b.sessionId, b.nextId, f.shotIndex, f.shotCount, OutcomeOf(env, f.shotIndex));
    assert events == head + events[3..];
    assert b.log + head + events[3..] == b.log + (head + events[3..]);
  }

  ghost predicate AllTaken(env: Surroundings, from: nat, n: nat) {
    forall i | from <= i < n :: OutcomeOf(env, i).Taken?
  }

  function FirstFrame(b: Booth): Frame {
    Frame(CountdownStateSent, 0, b.shotCount, [], 0)
  }

  /** What an undisturbed capture() must have done when it is over, seen from the head of the loop. */
  ghost predicate EndsAsExpected(b: Booth, f: Frame, env: Surroundings, c: Booth, g: Frame) {
    var renderFails := env(f.shotCount, Rendering).reply.fault.Some?;
    && c.log == b.log + ExpectedEvents(b.sessionId, b.nextId, f.shotIndex, f.shotCount, Composes(b, f.shotCount),
                                       b.queued, Outcomes(env), renderFails)
    && (if AllTaken(env, f.shotIndex, f.shotCount)
        then g.point == if !Composes(b, f.shotCount) || !renderFails then Returned else Raised(RenderFault)
        else CameraFailed(g))
  }

  lemma TakenFrom(env: Surroundings, i: nat, n: nat)
    requires i < n && OutcomeOf(env, i).Taken?
    ensures AllTaken(env, i, n) <==> AllTaken(env, i + 1, n)
  {
  }

  lemma EventsOfPass(session: Id, id: Id, i: nat, n: nat, composed: bool, queued: bool, env: Surroundings,
                     renderFails: bool, before: seq<Event>)
    requires i < n && OutcomeOf(env, i).Taken?
    ensures before + ShotEvents(session, id, i, n, OutcomeOf(env, i))
            + ExpectedEvents(session, id + 1, i + 1, n, composed, queued, Outcomes(env), renderFails)
         == before + ExpectedEvents(session, id, i, n, composed, queued, Outcomes(env), renderFails)
  {
    assert Outcomes(env)(i) == OutcomeOf(env, i);
  }

  lemma PassThenEnd(b: Booth, f: Frame, c: Booth, g: Frame, env: Surroundings, d: Booth, h: Frame)
    requires f.shotIndex < f.shotCount && ShotDone(b, f, c, g) && c.nextId == b.nextId + 1
    requires OutcomeOf(env, f.shotIndex).Taken?
    requires c.log == b.log + ShotEvents(b.sessionId, b.nextId, f.shotIndex, f.shotCount, OutcomeOf(env, f.shotIndex))
    requires EndsAsExpected(c, g, env, d, h)
    ensures EndsAsExpected(b, f, env, d, h)
  {
    EventsOfPass(b.sessionId, b.nextId, f.shotIndex, f.shotCount, Composes(b, f.shotCount), b.queued, env,
                 env(f.shotCount, Rendering).reply.fault.Some?, b.log);
    TakenFrom(env, f.shotIndex, f.shotCount);
  }

  lemma {:induction false} TraceFromLoopHead(b: Booth, f: Frame, env: Surroundings)
    requires Undisturbed(env) && AtLoopHead(b, f)
    ensures var (c, g) := DriveFrom(NextShot(b, f), env);
            EndsAsExpected(b, f, env, c, g)
    decreases f.shotCount - f.shotIndex
  {
    if f.shotIndex == f.shotCount {
      TraceOfReview(b, f, env);
    } else {
      var c, g := TraceOfPass(b, f, env);
      if OutcomeOf(env, f.shotIndex).Taken? {
        TraceFromLoopHead(c, g, env);
        var (d, h) := DriveFrom(NextShot(c, g), env);
        PassThenEnd(b, f, c, g, env, d, h);
      } else {
        assert Outcomes(env)(f.shotIndex) == OutcomeOf(env, f.shotIndex);
        assert c.log + [] == c.log;
      }
    }
  }

  /** Whatever the camera does, an undisturbed capture() broadcasts exactly the specified events, and it returns
      if and only if every shot was taken and the render, if there is one, worked. */
  lemma {:induction false} UndisturbedTrace(b: Booth, slots: Option<SlotCount>, env: Surroundings)
    requires b.state == IDLE && b.cameraIdle && Undisturbed(env)
    ensures var b0 := Arm(b, slots);
            var (c, g) := DriveFrom(Begin(b0), env);
            EndsAsExpected(b0, FirstFrame(b0), env, c, g)
  {
    TraceFromLoopHead(Arm(b, slots), FirstFrame(Arm(b, slots)), env);
  }

  /** When an undisturbed capture() is over the machine is in REVIEW if it returned, in CAPTURING if the render
      failed, idle if the camera did. */
  lemma {:induction false} UndisturbedState(b: Booth, slots: Option<SlotCount>, env: Surroundings)
    requires b.state == IDLE && b.cameraIdle && b.others == [] && Undisturbed(env)
    ensures var (c, g) := DriveFrom(Begin(Arm(b, slots)), env);
            Finished(g) && c.state == ExpectedState(g.point)
  {
    CaptureEnds(b, slots, env);
  }

  /** After a failed render, and only then, the booth is left where it cannot be armed until it is dismissed. */
  lemma {:induction false} FailedRenderBlocksArm(b: Booth, slots: Option<SlotCount>, env: Surroundings,
                                                 next: Option<SlotCount>)
    requires b.state == IDLE && b.cameraIdle && b.others == [] && Undisturbed(env)
    ensures var b0 := Arm(b, slots);
            var (c, g) := DriveFrom(Begin(b0), env);
            b0.shotCount > 1 && AllTaken(env, 0, b0.shotCount) && env(b0.shotCount, Rendering).reply.fault.Some?
            <==> g.point == Raised(RenderFault) && Stuck(c, next)
  {
    UndisturbedTrace(b, slots, env);
    UndisturbedState(b, slots, env);
  }

  /** The machine is in CAPTURING: an arm() is refused, whatever it loads, and works again after a dismiss(). */
  predicate Stuck(b: Booth, next: Option<SlotCount>) {
    b.state == CAPTURING && Arm(b, next) == b && ArmRaising(b) == b && Arm(Dismiss(b), next).state == ARMED
  }
}
