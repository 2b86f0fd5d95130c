/** What every interleaving of arm, capture and dismiss keeps, and how one capture() must end. */
module SessionSafety {
  import opened Results
  import opened SessionProtocol

  // ---------------------------------------------------------------- the machine

  /** The edges by where they lead: whence each state can be entered. */
  lemma EdgesByTarget(state: SessionState, target: SessionState)
    ensures target in AllowedTransitions(state) <==>
              match target
              case IDLE => state != IDLE
              case ARMED => state == IDLE
              case COUNTDOWN => state == ARMED || state == CAPTURING
              case CAPTURING => state == COUNTDOWN
              case REVIEW => state == CAPTURING
              case PROCESSING => state == REVIEW
  {
  }

  /** A dismiss always ends in IDLE: from any other state it says so to the row and to the guest, in IDLE it does
      nothing. */
  lemma DismissIdles(b: Booth)
    ensures Dismiss(b).state == IDLE
    ensures b.state == IDLE ==> Dismiss(b) == b
    ensures b.state != IDLE ==>
              && Dismiss(b).log == b.log + [StateChanged(b.sessionId, IDLE, None)]
              && Dismiss(b).sessions.Keys == b.sessions.Keys
              && (b.sessionId in b.sessions ==> Dismiss(b).sessions[b.sessionId].state == IDLE)
              && Dismiss(b) == b.(state := IDLE, sessions := Dismiss(b).sessions, log := Dismiss(b).log)
  {
    EdgesByTarget(b.state, IDLE);
  }

  /** So the booth can always be armed again: in every world an arm() right after a dismiss() is accepted, and one that
      raises can be followed by another dismiss() and another arm(). */
  lemma DismissThenArm(w: World, slots: Option<SlotCount>)
    ensures var armed := Step(Step(w, DismissNow), ArmOk(slots)).booth;
            && armed.state == ARMED && armed.sessionId == w.booth.nextId
            && armed.shotCount == (if slots.Some? then slots.value else 1) && armed.templated == slots.Some?
            && armed.sessionId in armed.sessions && armed.sessions[armed.sessionId] == SessionRow(ARMED, None)
    ensures var raised := Step(Step(w, DismissNow), ArmRaises);
            && raised.booth.state == ARMED && raised.booth.sessionId == w.booth.nextId
            && Step(Step(raised, DismissNow), ArmOk(slots)).booth.state == ARMED
            && Step(Step(raised, DismissNow), ArmOk(slots)).booth.sessionId == w.booth.nextId + 1
  {
    DismissIdles(w.booth);
    DismissIdles(Step(Step(w, DismissNow), ArmRaises).booth);
  }

  // ---------------------------------------------------------------- rows mirror the machine

  ghost predicate RowsMirror(b: Booth) {
    && b.sessionId < b.nextId
    && (forall s | s in b.sessions ::
          && s < b.nextId
          && b.sessions[s].state == (if s == b.sessionId then b.state else IDLE))
  }

  lemma TransitionKeepsRowsMirror(b: Booth, target: SessionState, token: Option<Id>)
    requires RowsMirror(b)
    ensures Transition(b, target, token).Some? ==> RowsMirror(Transition(b, target, token).value)
  {
  }

  lemma DeliverKeepsRowsMirror(b: Booth, f: Frame, id: Id)
    requires RowsMirror(b)
    ensures RowsMirror(Deliver(b, f, id).0)
  {
    var (issued, token) := IssueToken(b.(deliverables := [id]), id);
    assert RowsMirror(issued);
    TransitionKeepsRowsMirror(issued, REVIEW, token);
  }

  lemma NextShotKeepsRowsMirror(b: Booth, f: Frame)
    requires RowsMirror(b)
    ensures RowsMirror(NextShot(b, f).0)
  {
    if f.shotIndex < f.shotCount {
      TransitionKeepsRowsMirror(b, COUNTDOWN, None);
    } else if (!b.templated || |f.captureIds| == 1) && |f.captureIds| > 0 {
      DeliverKeepsRowsMirror(b, f, f.captureIds[0]);
    }
  }

  lemma SameRowsMirror(b: Booth, c: Booth)
    requires RowsMirror(b) && b.nextId <= c.nextId
    requires c.state == b.state && c.sessionId == b.sessionId && c.sessions == b.sessions
    ensures RowsMirror(c)
  {
  }

  predicate Transits(f: Frame) {
    || f.point.Sleeping? || f.point.WaitingForCamera?
    || f.point.FullSent? || f.point.FailureSent? || f.point.CompositeSent?
  }

  lemma OtherResumesLeaveRows(b: Booth, f: Frame, r: Reply)
    requires !Transits(f)
    ensures var c := Resume(b, f, r).0;
            b.nextId <= c.nextId && c.state == b.state && c.sessionId == b.sessionId && c.sessions == b.sessions
  {
    if AtFallibleCall(f) {
      CallsLeaveRows(b, f, r);
    }
  }

  lemma CallsLeaveRows(b: Booth, f: Frame, r: Reply)
    requires AtFallibleCall(f)
    ensures var c := Resume(b, f, r).0;
            b.nextId <= c.nextId && c.state == b.state && c.sessionId == b.sessionId && c.sessions == b.sessions
  {
    if f.point.Triggering? {
      assert Resume(b, f, r) == TriggerReturned(b, f, r);
    } else if f.point.FetchingPreview? {
      assert Resume(b, f, r) == PreviewReturned(b, f, r);
    } else if f.point.FetchingFull? {
      assert Resume(b, f, r) == FullReturned(b, f, r);
    }
  }

  lemma ResumeKeepsRowsMirror(b: Booth, f: Frame, r: Reply)
    requires RowsMirror(b)
    ensures RowsMirror(Resume(b, f, r).0)
  {
    if f.point.Sleeping? || f.point.WaitingForCamera? {
      TransitionKeepsRowsMirror(b, CAPTURING, None);
    } else if f.point.FullSent? {
      NextShotKeepsRowsMirror(b, f.(shotIndex := f.shotIndex + 1));
    } else if f.point.FailureSent? {
      TransitionKeepsRowsMirror(b, IDLE, None);
    } else if f.point.CompositeSent? {
      DeliverKeepsRowsMirror(b, f, f.current);
    } else {
      OtherResumesLeaveRows(b, f, r);
      SameRowsMirror(b, Resume(b, f, r).0);
    }
  }

  lemma StepKeepsRowsMirror(w: World, a: Action)
    requires RowsMirror(w.booth)
    ensures RowsMirror(Step(w, a).booth)
  {
    match a
    case DismissNow => TransitionKeepsRowsMirror(w.booth, IDLE, None);
    case StartCapture => NextShotKeepsRowsMirror(w.booth, Frame(CountdownStateSent, 0, w.booth.shotCount, [], 0));
    case Wake(k, reply) =>
      if k < |w.captures| {
        ResumeKeepsRowsMirror(w.booth, w.captures[k], reply);
      }
    case _ =>
  }

  /** Under any interleaving of any number of arms (failing ones too), captures and dismisses, the row of
      the current session, if there is one, holds the machine's state, and every other row is idle. */
  lemma {:induction false} RowsMirrorAlways(w: World, actions: seq<Action>)
    requires RowsMirror(w.booth)
    ensures RowsMirror(Run(w, actions).booth)
    decreases |actions|
  {
    if |actions| > 0 {
      StepKeepsRowsMirror(w, actions[0]);
      RowsMirrorAlways(Step(w, actions[0]), actions[1..]);
    }
  }

  lemma {:induction false} RowsMirrorFromOpening(queued: bool, actions: seq<Action>)
    ensures RowsMirror(Run(Opening(queued), actions).booth)
  {
    RowsMirrorAlways(Opening(queued), actions);
  }

  // ---------------------------------------------------------------- one capture

  /** The commands of shots that were triggered and downloaded one after the other. */
  function Pairs(ids: seq<Id>): seq<CameraCommand> {
    if |ids| == 0 then []
    else Pairs(ids[..|ids| - 1]) + [Triggered(ids[|ids| - 1]), Downloaded(ids[|ids| - 1])]
  }

  lemma PairsAppend(ids: seq<Id>, id: Id)
    ensures Pairs(ids + [id]) == Pairs(ids) + [Triggered(id), Downloaded(id)]
  {
    assert (ids + [id])[..|ids|] == ids;
  }

  predicate AfterReview(f: Frame) {
    f.point.ReviewStateSent? || f.point.Returned?
  }

  predicate Failing(f: Frame) {
    f.point.FailureSent? || f.point.IdleStateSent? || f.point.Raised?
  }

  predicate ShotTaken(f: Frame) {
    f.point.FetchingPreview? || f.point.PreviewSent? || f.point.FetchingFull?
  }

  /** The state the machine is in at each await unless the session was dismissed. */
  function ExpectedState(p: Point): SessionState {
    match p
    case CountdownStateSent => COUNTDOWN
    case CountdownSent => COUNTDOWN
    case Sleeping => COUNTDOWN
    case WaitingForCamera => COUNTDOWN
    case ReviewStateSent => REVIEW
    case Returned => REVIEW
    case IdleStateSent(_) => IDLE
    case Raised(exit) => if exit.RenderFault? then CAPTURING else IDLE
    case _ => CAPTURING
  }

  /** How many shots are complete at each await. */
  ghost predicate ShotsComplete(f: Frame) {
    match f.point
    case FullSent => |f.captureIds| == f.shotIndex + 1 && f.shotIndex < f.shotCount
    case Rendering => |f.captureIds| == f.shotIndex == f.shotCount
    case CompositeSent => |f.captureIds| == f.shotIndex == f.shotCount
    case ReviewStateSent => |f.captureIds| == f.shotIndex == f.shotCount
    case Returned => |f.captureIds| == f.shotIndex == f.shotCount
    case Raised(_) => |f.captureIds| <= f.shotCount
    case _ => |f.captureIds| == f.shotIndex < f.shotCount
  }

  ghost predicate FilesWritten(b: Booth, ids: seq<Id>) {
    forall k | 0 <= k < |ids| :: Full(ids[k]) in b.files
  }

  /** What is true at every await of a capture() that started in booth `b0`. */
  ghost predicate Progress(b0: Booth, b: Booth, f: Frame) {
    && f.shotCount == b0.shotCount
    && b.templated == b0.templated && b.sessionId == b0.sessionId
    && ShotsComplete(f)
    && (b.state == ExpectedState(f.point) || b.state == IDLE)
    && (b.cameraIdle <==> !f.point.FetchingFull?)
    && !f.point.WaitingForCamera?
    && FilesWritten(b, f.captureIds)
    && (!Failing(f) ==>
          b.camera == b0.camera + Pairs(f.captureIds) + (if ShotTaken(f) then [Triggered(f.current)] else []))
  }

  /** Dismisses at any await, and resumptions of the one capture. */
  predicate Solo(a: Action) {
    a.DismissNow? || (a.Wake? && a.k == 0)
  }

  predicate AllSolo(actions: seq<Action>) {
    forall i | 0 <= i < |actions| :: Solo(actions[i])
  }

  predicate AtFallibleCall(f: Frame) {
    f.point.Triggering? || f.point.FetchingPreview? || f.point.FetchingFull? || f.point.Rendering?
  }

  /** The action dismisses the session before its review, or makes a call of the capture fail. */
  predicate Spoils(b: Booth, f: Frame, a: Action) {
    && !AfterReview(f)
    && ((a.DismissNow? && b.state != IDLE) || (a.Wake? && a.reply.fault.Some? && AtFallibleCall(f)))
  }

  /** The capture can no longer reach its review. */
  predicate Doomed(b: Booth, f: Frame) {
    !AfterReview(f) && (b.state == IDLE || Failing(f))
  }

  ghost predicate SoloWorld(b0: Booth, w: World) {
    |w.captures| == 1 && Progress(b0, w.booth, w.captures[0])
  }

  lemma SoloDeliver(b0: Booth, b: Booth, f: Frame, id: Id)
    requires f.shotCount == b0.shotCount && b.templated == b0.templated && b.sessionId == b0.sessionId
    requires |f.captureIds| == f.shotIndex == f.shotCount
    requires b.state == CAPTURING || b.state == IDLE
    requires b.cameraIdle && b.camera == b0.camera + Pairs(f.captureIds)
    requires FilesWritten(b, f.captureIds)
    ensures var (c, g) := Deliver(b, f, id);
            Progress(b0, c, g) && (Doomed(c, g) <==> b.state == IDLE)
  {
    assert b0.camera + Pairs(f.captureIds) + [] == b0.camera + Pairs(f.captureIds);
  }

  lemma SoloNextShot(b0: Booth, b: Booth, f: Frame)
    requires f.shotCount == b0.shotCount && b.templated == b0.templated && b.sessionId == b0.sessionId
    requires |f.captureIds| == f.shotIndex <= f.shotCount
    requires b.state == (if f.shotIndex == 0 then ARMED else CAPTURING) || b.state == IDLE
    requires b.cameraIdle && b.camera == b0.camera + Pairs(f.captureIds)
    requires FilesWritten(b, f.captureIds)
    ensures var (c, g) := NextShot(b, f);
            Progress(b0, c, g) && (Doomed(c, g) <==> b.state == IDLE)
  {
    assert b0.camera + Pairs(f.captureIds) + [] == b0.camera + Pairs(f.captureIds);
    if f.shotIndex == f.shotCount && (!b.templated || |f.captureIds| == 1) {
      SoloDeliver(b0, b, f, f.captureIds[0]);
    }
  }

  lemma PairDone(before: seq<CameraCommand>, ids: seq<Id>, id: Id)
    ensures before + Pairs(ids) + [Triggered(id)] + [Downloaded(id)] == before + Pairs(ids + [id]) + []
  {
    PairsAppend(ids, id);
  }

  lemma SoloFullReturned(b0: Booth, b: Booth, f: Frame, r: Reply)
    requires Progress(b0, b, f) && f.point.FetchingFull? && r.fault.None?
    ensures var (c, g) := FullReturned(b, f, r);
            Progress(b0, c, g) && (Doomed(c, g) <==> Doomed(b, f))
  {
    PairDone(b0.camera, f.captureIds, f.current);
  }

  lemma SoloCallReturned(b0: Booth, b: Booth, f: Frame, r: Reply)
    requires Progress(b0, b, f) && AtFallibleCall(f)
    ensures var (c, g) := Resume(b, f, r);
            Progress(b0, c, g) && (Doomed(c, g) <==> Doomed(b, f) || r.fault.Some?)
  {
    if r.fault.Some? {
      if f.point.Rendering? {
        assert Resume(b, f, r) == (b, At(f, Raised(RenderFault)));
      } else {
        assert Resume(b, f, r) == FailShot(b, f, r.fault.value);
      }
    } else if f.point.FetchingFull? {
      SoloFullReturned(b0, b, f, r);
    } else if f.point.Triggering? {
      SoloTriggered(b0, b, f, r);
    } else if f.point.FetchingPreview? {
      SoloPreviewed(b0, b, f, r);
    } else {
      SoloRendered(b0, b, f, r);
    }
  }

  lemma SoloTriggered(b0: Booth, b: Booth, f: Frame, r: Reply)
    requires Progress(b0, b, f) && f.point.Triggering? && r.fault.None?
    ensures var (c, g) := TriggerReturned(b, f, r);
            Progress(b0, c, g) && (Doomed(c, g) <==> Doomed(b, f))
  {
    assert b0.camera + Pairs(f.captureIds) + [] == b0.camera + Pairs(f.captureIds);
  }

  lemma SoloPreviewed(b0: Booth, b: Booth, f: Frame, r: Reply)
    requires Progress(b0, b, f) && f.point.FetchingPreview? && r.fault.None?
    ensures var (c, g) := PreviewReturned(b, f, r);
            Progress(b0, c, g) && (Doomed(c, g) <==> Doomed(b, f))
  {
  }

  lemma SoloRendered(b0: Booth, b: Booth, f: Frame, r: Reply)
    requires Progress(b0, b, f) && f.point.Rendering? && r.fault.None?
    ensures var (c, g) := RenderReturned(b, f, r);
            Progress(b0, c, g) && (Doomed(c, g) <==> Doomed(b, f))
  {
    assert b0.camera + Pairs(f.captureIds) + [] == b0.camera + Pairs(f.captureIds);
  }

  lemma SoloResume(b0: Booth, b: Booth, f: Frame, r: Reply)
    requires Progress(b0, b, f)
    ensures var (c, g) := Resume(b, f, r);
            && Progress(b0, c, g)
            && (Doomed(c, g) <==> Doomed(b, f) || (!AfterReview(f) && r.fault.Some? && AtFallibleCall(f)))
  {
    if AtFallibleCall(f) {
      SoloCallReturned(b0, b, f, r);
    } else if f.point.FullSent? {
      assert b0.camera + Pairs(f.captureIds) + [] == b0.camera + Pairs(f.captureIds);
      SoloNextShot(b0, b, f.(shotIndex := f.shotIndex + 1));
    } else if f.point.CompositeSent? {
      assert b0.camera + Pairs(f.captureIds) + [] == b0.camera + Pairs(f.captureIds);
      SoloDeliver(b0, b, f, f.current);
    } else {
      SoloQuietResume(b0, b, f, r);
    }
  }

  lemma SoloQuietResume(b0: Booth, b: Booth, f: Frame, r: Reply)
    requires Progress(b0, b, f) && !AtFallibleCall(f) && !f.point.FullSent? && !f.point.CompositeSent?
    ensures var (c, g) := Resume(b, f, r);
            Progress(b0, c, g) && (Doomed(c, g) <==> Doomed(b, f))
  {
    if f.point.Sleeping? {
      SoloEnterCapturing(b0, b, f);
    } else if Failing(f) || AfterReview(f) {
      SoloEnding(b0, b, f, r);
    } else if f.point.PreviewSent? {
      assert Resume(b, f, r) == (b.(cameraIdle := false), At(f, FetchingFull));
    }
  }

  lemma SoloEnding(b0: Booth, b: Booth, f: Frame, r: Reply)
    requires Progress(b0, b, f) && (Failing(f) || AfterReview(f))
    ensures var (c, g) := Resume(b, f, r);
            Progress(b0, c, g) && (Doomed(c, g) <==> Doomed(b, f))
  {
    if f.point.FailureSent? {
      assert Resume(b, f, r) == FailureBroadcast(b, f, f.point.message);
    } else {
      assert Resume(b, f, r).0 == b;
    }
  }

  lemma SoloEnterCapturing(b0: Booth, b: Booth, f: Frame)
    requires Progress(b0, b, f) && f.point.Sleeping?
    ensures var (c, g) := EnterCapturing(b, f);
            Progress(b0, c, g) && (Doomed(c, g) <==> Doomed(b, f))
  {
  }

  lemma SoloStep(b0: Booth, w: World, a: Action)
    requires SoloWorld(b0, w) && Solo(a)
    ensures SoloWorld(b0, Step(w, a))
    ensures Doomed(Step(w, a).booth, Step(w, a).captures[0])
       <==> Doomed(w.booth, w.captures[0]) || Spoils(w.booth, w.captures[0], a)
  {
    if a.Wake? {
      SoloResume(b0, w.booth, w.captures[0], a.reply);
    }
  }

  predicate Spoiled(w: World, actions: seq<Action>)
    requires |w.captures| == 1
    requires AllSolo(actions)
    decreases |actions|
  {
    |actions| > 0 && (Spoils(w.booth, w.captures[0], actions[0]) || Spoiled(Step(w, actions[0]), actions[1..]))
  }

  lemma {:induction false} SoloRun(b0: Booth, w: World, actions: seq<Action>)
    requires SoloWorld(b0, w)
    requires AllSolo(actions)
    ensures SoloWorld(b0, Run(w, actions))
    ensures Doomed(Run(w, actions).booth, Run(w, actions).captures[0])
       <==> Doomed(w.booth, w.captures[0]) || Spoiled(w, actions)
    decreases |actions|
  {
    if |actions| > 0 {
      SoloStep(b0, w, actions[0]);
      SoloRun(b0, Step(w, actions[0]), actions[1..]);
    }
  }

  lemma BeginsWell(b0: Booth)
    requires b0.state == ARMED && b0.cameraIdle
    ensures SoloWorld(b0, Step(World(b0, []), StartCapture))
    ensures var w := Step(World(b0, []), StartCapture);
            w.captures[0].point == CountdownStateSent && !Doomed(w.booth, w.captures[0])
  {
    assert b0.camera + Pairs([]) == b0.camera;
    SoloNextShot(b0, b0, Frame(CountdownStateSent, 0, b0.shotCount, [], 0));
  }

  // ---------------------------------------------------------------- the machine's state during one capture

  /** dismiss() was called at some await. */
  predicate Dismissed(actions: seq<Action>) {
    exists i :: 0 <= i < |actions| && actions[i].DismissNow?
  }

  lemma CallsKeepState(b: Booth, f: Frame, r: Reply)
    requires AtFallibleCall(f)
    ensures Resume(b, f, r).0.state == b.state
  {
    CallsLeaveRows(b, f, r);
  }

  lemma IdleNextShotStays(b: Booth, f: Frame)
    requires b.state == IDLE
    ensures NextShot(b, f).0.state == IDLE
  {
  }

  lemma IdleResumeStays(b: Booth, f: Frame, r: Reply)
    requires b.state == IDLE
    ensures Resume(b, f, r).0.state == IDLE
  {
    if !Transits(f) {
      OtherResumesLeaveRows(b, f, r);
    } else if f.point.FullSent? {
      IdleNextShotStays(b, f.(shotIndex := f.shotIndex + 1));
    }
  }

  /** Only an arm() leads out of IDLE. */
  lemma {:induction false} IdleRunStays(w: World, actions: seq<Action>)
    requires w.booth.state == IDLE && |w.captures| == 1 && AllSolo(actions)
    ensures Run(w, actions).booth.state == IDLE
    decreases |actions|
  {
    if |actions| > 0 {
      if actions[0].Wake? {
        IdleResumeStays(w.booth, w.captures[0], actions[0].reply);
      }
      IdleRunStays(Step(w, actions[0]), actions[1..]);
    }
  }

  lemma ExpectedDelivery(b: Booth, f: Frame, id: Id)
    requires b.state == CAPTURING
    ensures var (c, g) := Deliver(b, f, id);
            c.state == ExpectedState(g.point)
  {
  }

  lemma ExpectedNextShot(b: Booth, f: Frame)
    requires b.state == CAPTURING && |f.captureIds| > 0
    ensures var (c, g) := NextShot(b, f);
            c.state == ExpectedState(g.point)
  {
    if f.shotIndex >= f.shotCount && (!b.templated || |f.captureIds| == 1) {
      ExpectedDelivery(b, f, f.captureIds[0]);
    }
  }

  lemma ExpectedTransit(b: Booth, f: Frame, r: Reply)
    requires b.state == ExpectedState(f.point) && Transits(f)
    requires f.point.FullSent? ==> |f.captureIds| > 0
    ensures var (c, g) := Resume(b, f, r);
            c.state == ExpectedState(g.point)
  {
    if f.point.FullSent? {
      ExpectedNextShot(b, f.(shotIndex := f.shotIndex + 1));
    } else if f.point.CompositeSent? {
      ExpectedDelivery(b, f, f.current);
    }
  }

  lemma ExpectedResume(b: Booth, f: Frame, r: Reply)
    requires b.state == ExpectedState(f.point)
    requires f.point.FullSent? ==> |f.captureIds| > 0
    ensures var (c, g) := Resume(b, f, r);
            c.state == ExpectedState(g.point)
  {
    if AtFallibleCall(f) {
      CallsKeepState(b, f, r);
    } else if Transits(f) {
      ExpectedTransit(b, f, r);
    }
  }

  lemma DismissedLater(actions: seq<Action>)
    requires |actions| > 0 && !actions[0].DismissNow?
    ensures Dismissed(actions) <==> Dismissed(actions[1..])
  {
    if Dismissed(actions) {
      var i :| 0 <= i < |actions| && actions[i].DismissNow?;
      assert actions[1..][i - 1].DismissNow?;
    }
    if Dismissed(actions[1..]) {
      var i :| 0 <= i < |actions| - 1 && actions[1..][i].DismissNow?;
      assert actions[i + 1].DismissNow?;
    }
  }

  /** At every await the machine is in the state the await expects, or idle from the first dismiss on. */
  lemma {:induction false} StateDuringCapture(b0: Booth, w: World, actions: seq<Action>)
    requires SoloWorld(b0, w) && AllSolo(actions)
    requires w.booth.state == ExpectedState(w.captures[0].point)
    ensures |Run(w, actions).captures| == 1
    ensures var r := Run(w, actions);
            r.booth.state == if Dismissed(actions) then IDLE else ExpectedState(r.captures[0].point)
    decreases |actions|
  {
    if |actions| > 0 {
      var a, rest := actions[0], actions[1..];
      var s := Step(w, a);
      SoloStep(b0, w, a);
      SoloRun(b0, s, rest);
      if a.DismissNow? {
        IdleRunStays(s, rest);
      } else {
        ExpectedResume(w.booth, w.captures[0], a.reply);
        StateDuringCapture(b0, s, rest);
        DismissedLater(actions);
      }
    }
  }

  /**
   After an `arm()` that returned normally and one `capture()`, with `dismiss()` at any await:
   the review is reached only after exactly `shot_count` trigger/download pairs, in order and with nothing in
   between, and with every full file written; the camera-idle gate is open at every trigger and at the end;
   a capture that ended raised if and only if it was dismissed before its review or one of its calls failed;
   and the machine's state is known at every await: idle once dismissed, else as the await expects.  So it is
   in REVIEW only after the review began; a capture that raised left it IDLE, except that a failed render
   leaves it in CAPTURING, and does so exactly when there was no dismiss.
   */
  lemma {:induction false} CaptureProtocol(b: Booth, slots: Option<SlotCount>, actions: seq<Action>)
    requires b.state == IDLE && b.cameraIdle
    requires AllSolo(actions)
    ensures var b0 := Arm(b, slots);
            var w0 := Step(World(b0, []), StartCapture);
            var w := Run(w0, actions);
            |w0.captures| == 1 && |w.captures| == 1 &&
            var f := w.captures[0];
            && w.booth.state == (if Dismissed(actions) then IDLE else ExpectedState(f.point))
            && (w.booth.state == REVIEW ==> AfterReview(f))
            && (AfterReview(f) ==>
                  && |f.captureIds| == b0.shotCount
                  && w.booth.camera == b0.camera + Pairs(f.captureIds)
                  && FilesWritten(w.booth, f.captureIds))
            && (f.point.Raised? ==>
                  w.booth.state == if f.point.exit.RenderFault? && !Dismissed(actions) then CAPTURING else IDLE)
            && (f.point.Triggering? || Finished(f) ==> w.booth.cameraIdle)
            && (Finished(f) ==> (f.point.Raised? <==> Spoiled(w0, actions)))
  {
    var b0 := Arm(b, slots);
    var w0 := Step(World(b0, []), StartCapture);
    BeginsWell(b0);
    SoloRun(b0, w0, actions);
    StateDuringCapture(b0, w0, actions);
    var f := Run(w0, actions).captures[0];
    if AfterReview(f) {
      assert b0.camera + Pairs(f.captureIds) + [] == b0.camera + Pairs(f.captureIds);
    }
  }

  /** `capture()` called in any state from which COUNTDOWN is not allowed raises at once and changes
      nothing; so does one started after a dismiss. */
  lemma CaptureRefused(b: Booth)
    ensures b.state != ARMED && b.state != CAPTURING <==>
              Begin(b) == (b, Frame(Raised(InvalidTransition), 0, b.shotCount, [], 0))
  {
  }

  /** The source-count guard of the compositor: a render is asked for exactly one source per slot the
      template had when the session was armed. */
  lemma {:induction false} RenderGetsOneSourcePerSlot(b: Booth, slots: SlotCount, actions: seq<Action>)
    requires b.state == IDLE && b.cameraIdle
    requires AllSolo(actions)
    ensures var w := Run(Step(World(Arm(b, Some(slots)), []), StartCapture), actions);
            |w.captures| == 1 && (w.captures[0].point.Rendering? ==> |w.captures[0].captureIds| == slots)
  {
    BeginsWell(Arm(b, Some(slots)));
    SoloRun(Arm(b, Some(slots)), Step(World(Arm(b, Some(slots)), []), StartCapture), actions);
  }
}
