/**
 Which capture a shared session delivers: the raw shot when the session takes one, the composite when it takes
 more.  The log tells how many shots a session was announced to take, the camera's record which captures are
 raw shots; so the claim can be stated of every session at every later time.
 */
module SessionDeliverables {
  import opened Results
  import opened SessionProtocol
  import opened SessionSafety
  import opened SessionSharing

  /** The guest saw the countdown of the first of `n` shots of session `s`. */
  predicate Counted(b: Booth, s: Id, n: nat) {
    CountdownStarted(s, 0, n) in b.log
  }

  predicate RawShot(b: Booth, id: Id) {
    Triggered(id) in b.camera
  }

  /** A raw shot is delivered if and only if the session takes one shot. */
  ghost predicate RightKind(b: Booth, s: Id, n: nat) {
    |ListBySession(b.captures, s)| == 1 && (RawShot(b, ListBySession(b.captures, s)[0]) <==> n == 1)
  }

  ghost predicate WasCounted(b: Booth, s: Id) {
    exists n: nat :: Counted(b, s, n)
  }

  ghost predicate AllRight(b: Booth, s: Id) {
    forall n: nat :: Counted(b, s, n) ==> RightKind(b, s, n)
  }

  ghost predicate KindsOk(b: Booth) {
    && (forall n: nat :: Counted(b, b.sessionId, n) ==> n == b.shotCount)
    && (forall s: Id, n: nat :: Counted(b, s, n) ==> s < b.nextId)
    && (forall id: Id :: RawShot(b, id) ==> id < b.nextId)
    && (forall s | s in b.sessions && HasToken(b, s) :: WasCounted(b, s) && AllRight(b, s))
  }

  /** The kinds of the captures that the frame knows. */
  ghost predicate FrameKinds(b: Booth, f: Frame) {
    && (f.shotIndex > 0 || !f.point.CountdownStateSent? ==> Counted(b, b.sessionId, f.shotCount))
    && (forall k | 0 <= k < |f.captureIds| :: RawShot(b, f.captureIds[k]))
    && (ShotTaken(f) ==> RawShot(b, f.current))
    && (f.point.CompositeSent? ==> !RawShot(b, f.current))
  }

  /** At its review a session that has a row lists what this capture made for it, and nothing else; and that is what
      the program reports as the session's captures. */
  ghost predicate ListsDeliverable(b: Booth, f: Frame) {
    b.sessionId in b.sessions ==>
      b.deliverables == ListBySession(b.captures, b.sessionId) &&
      if f.shotCount == 1 then ListBySession(b.captures, b.sessionId) == f.captureIds
      else ListBySession(b.captures, b.sessionId) == [f.current] && f.current !in f.captureIds
  }

  ghost predicate FrameFits(b: Booth, f: Frame) {
    && (!Failing(f) && !AfterReview(f) ==> FrameKinds(b, f))
    && (f.point.ReviewStateSent? ==> ListsDeliverable(b, f))
  }

  /** What is listed for a session with a token stays. */
  ghost predicate Kept(b: Booth, c: Booth) {
    forall s | s in b.sessions && HasToken(b, s) ::
      && s in c.sessions && c.sessions[s].shareToken == b.sessions[s].shareToken
      && ListBySession(c.captures, s) == ListBySession(b.captures, s)
  }

  /** Nothing that matters for kinds changed. */
  ghost predicate Still(b: Booth, c: Booth) {
    && c.sessionId == b.sessionId && c.shotCount == b.shotCount && c.captures == b.captures && b.nextId <= c.nextId
    && c.sessions.Keys == b.sessions.Keys
    && (forall s | s in b.sessions :: c.sessions[s].shareToken == b.sessions[s].shareToken)
    && (forall s: Id, n: nat :: Counted(c, s, n) <==> Counted(b, s, n))
    && (forall id: Id :: RawShot(c, id) <==> RawShot(b, id))
  }

  lemma StillKeepsKinds(b: Booth, c: Booth)
    requires KindsOk(b) && Still(b, c)
    ensures KindsOk(c) && Kept(b, c)
  {
    forall s | s in c.sessions && HasToken(c, s) ensures AllRight(c, s) {
      assert HasToken(b, s) && AllRight(b, s);
    }
    forall s | s in c.sessions && HasToken(c, s) ensures WasCounted(c, s) {
      assert HasToken(b, s) && WasCounted(b, s);
      var n: nat :| Counted(b, s, n);
      assert Counted(c, s, n);
    }
  }

  lemma StillTransition(b: Booth, target: SessionState, token: Option<Id>)
    ensures var t := Transition(b, target, token);
            Still(b, if t.None? then b else t.value)
  {
  }

  lemma StillBroadcast(b: Booth, c: Booth, e: Event)
    requires Still(b, c) && !e.CountdownStarted?
    ensures Still(b, Broadcast(c, e))
  {
  }

  // ---------------------------------------------------------------- the steps that matter

  lemma ArmKeepsKinds(b: Booth, slots: Option<SlotCount>)
    requires KindsOk(b) && IdsBounded(b)
    ensures KindsOk(Arm(b, slots)) && Kept(b, Arm(b, slots))
    ensures KindsOk(ArmRaising(b)) && Kept(b, ArmRaising(b))
  {
    OpenedKeepsKinds(b, ArmRaising(b));
    OpenedKeepsKinds(b, Arm(b, slots));
  }

  /** A session under a fresh id was opened, if any. */
  lemma OpenedKeepsKinds(b: Booth, c: Booth)
    requires KindsOk(b) && IdsBounded(b)
    requires c.captures == b.captures && c.camera == b.camera && b.nextId <= c.nextId
    requires c == b || c.sessionId == b.nextId
    requires c.sessions == b.sessions || c.sessions == b.sessions[b.nextId := SessionRow(ARMED, None)]
    requires c.log == b.log || c.log == b.log + [StateChanged(b.nextId, ARMED, None)]
    ensures KindsOk(c) && Kept(b, c)
  {
    forall id: Id ensures RawShot(c, id) <==> RawShot(b, id) {
    }
    forall s: Id, n: nat ensures Counted(c, s, n) <==> Counted(b, s, n) {
    }
    forall s | s in c.sessions && HasToken(c, s) ensures AllRight(c, s) {
      assert HasToken(b, s) && AllRight(b, s);
    }
    forall s | s in c.sessions && HasToken(c, s) ensures WasCounted(c, s) {
      assert HasToken(b, s);
      assert HasToken(b, s) && WasCounted(b, s);
      var n: nat :| Counted(b, s, n);
      assert Counted(c, s, n);
    }
  }

  /** The countdown of a session without a token is announced. */
  lemma CountKeepsKinds(b: Booth, i: nat)
    requires KindsOk(b) && b.sessionId < b.nextId && !HasToken(b, b.sessionId)
    ensures var c := Broadcast(b, CountdownStarted(b.sessionId, i, b.shotCount));
            KindsOk(c) && Kept(b, c)
  {
    var c := Broadcast(b, CountdownStarted(b.sessionId, i, b.shotCount));
    forall id: Id ensures RawShot(c, id) <==> RawShot(b, id) {
    }
    forall s: Id, n: nat
      ensures Counted(c, s, n) <==> Counted(b, s, n) || (s == b.sessionId && i == 0 && n == b.shotCount)
    {
    }
    forall s | s in c.sessions && HasToken(c, s) ensures AllRight(c, s) {
      assert AllRight(b, s);
    }
    forall s | s in c.sessions && HasToken(c, s) ensures WasCounted(c, s) {
      assert HasToken(b, s) && WasCounted(b, s);
      var n: nat :| Counted(b, s, n);
      assert Counted(c, s, n);
    }
  }

  /** A capture of a session without a token is recorded under a fresh id. */
  lemma CreatedKeepsKinds(b: Booth, c: Booth, deliverable: bool)
    requires KindsOk(b) && BoothOk(b) && !HasToken(b, b.sessionId)
    requires c.captures == b.captures + [CaptureRow(b.nextId, b.sessionId, deliverable)] && c.nextId == b.nextId + 1
    requires c.camera == b.camera || c.camera == b.camera + [Triggered(b.nextId)]
    requires c.sessionId == b.sessionId && c.shotCount == b.shotCount && c.sessions == b.sessions
    requires forall s: Id, n: nat :: Counted(c, s, n) <==> Counted(b, s, n)
    ensures KindsOk(c) && Kept(b, c)
  {
    forall id: Id ensures RawShot(c, id) ==> RawShot(b, id) || id == b.nextId {
    }
    assert forall id: Id :: RawShot(b, id) ==> RawShot(c, id);
    forall s | s in b.sessions && HasToken(b, s)
      ensures ListBySession(c.captures, s) == ListBySession(b.captures, s)
      ensures AllRight(c, s)
      ensures WasCounted(c, s)
    {
      ListAppend(b.captures, CaptureRow(b.nextId, b.sessionId, deliverable), s);
      assert Shared(b, s);
      var k := ListedRowExists(b.captures, s, ListBySession(b.captures, s)[0]);
      assert AllRight(b, s);
      assert HasToken(b, s) && WasCounted(b, s);
      var n: nat :| Counted(b, s, n);
      assert Counted(c, s, n);
    }
  }

  lemma IssueKeepsKinds(b: Booth, id: Id)
    requires KindsOk(b) && Open(b, [id])
    requires Counted(b, b.sessionId, b.shotCount) && (RawShot(b, id) <==> b.shotCount == 1)
    ensures KindsOk(IssueToken(b, id).0) && Kept(b, IssueToken(b, id).0)
  {
    if b.queued {
      var c := IssueToken(b, id).0;
      forall id: Id ensures RawShot(c, id) <==> RawShot(b, id) {
      }
      forall s: Id, n: nat ensures Counted(c, s, n) <==> Counted(b, s, n) {
      }
      forall s | s in c.sessions && HasToken(c, s) ensures AllRight(c, s) {
        if s != b.sessionId {
          assert AllRight(b, s);
        }
      }
      forall s | s in c.sessions && HasToken(c, s) ensures WasCounted(c, s) {
        if s == b.sessionId {
          assert Counted(c, s, b.shotCount);
        } else {
          assert HasToken(b, s) && WasCounted(b, s);
          var n: nat :| Counted(b, s, n);
          assert Counted(c, s, n);
        }
      }
    }
  }

  lemma DeliverKeepsKinds(b: Booth, f: Frame, id: Id)
    requires KindsOk(b) && Open(b, [id])
    requires Counted(b, b.sessionId, b.shotCount) && (RawShot(b, id) <==> b.shotCount == 1)
    requires b.sessionId in b.sessions ==>
               if f.shotCount == 1 then [id] == f.captureIds else id == f.current && id !in f.captureIds
    ensures var (c, g) := Deliver(b, f, id);
            KindsOk(c) && Kept(b, c) && FrameFits(c, g)
  {
    var d := b.(deliverables := [id]);
    StillKeepsKinds(b, d);
    IssueKeepsKinds(d, id);
    var (issued, token) := IssueToken(d, id);
    StillTransition(issued, REVIEW, token);
    var t := Transition(issued, REVIEW, token);
    StillKeepsKinds(issued, if t.None? then issued else t.value);
  }

  // ---------------------------------------------------------------- capture()

  ghost predicate Fitting(b: Booth, f: Frame) {
    CaptureOk(b, f) && KindsOk(b) && FrameFits(b, f)
  }

  ghost predicate After(b: Booth, c: Booth, g: Frame) {
    KindsOk(c) && Kept(b, c) && FrameFits(c, g)
  }

  lemma FittingTrigger(b: Booth, f: Frame, r: Reply)
    requires Fitting(b, f) && f.point.Triggering? && r.fault.None?
    ensures var (c, g) := TriggerReturned(b, f, r);
            After(b, c, g)
  {
    var (c, g) := TriggerReturned(b, f, r);
    CreatedKeepsKinds(b, c, f.shotCount == 1);
    assert forall id: Id :: RawShot(b, id) ==> RawShot(c, id);
    assert c.camera[|b.camera|] == Triggered(b.nextId);
  }

  lemma FittingRender(b: Booth, f: Frame, r: Reply)
    requires Fitting(b, f) && f.point.Rendering? && r.fault.None?
    ensures var (c, g) := RenderReturned(b, f, r);
            After(b, c, g)
  {
    var (c, g) := RenderReturned(b, f, r);
    forall s: Id, n: nat ensures Counted(c, s, n) <==> Counted(b, s, n) {
    }
    CreatedKeepsKinds(b, c, true);
    assert forall id: Id :: RawShot(b, id) <==> RawShot(c, id);
  }

  lemma FittingFull(b: Booth, f: Frame, r: Reply)
    requires Fitting(b, f) && f.point.FetchingFull? && r.fault.None?
    ensures var (c, g) := FullReturned(b, f, r);
            After(b, c, g)
  {
    var d := b.(cameraIdle := true, files := b.files + {Full(f.current)}, camera := b.camera + [Downloaded(f.current)]);
    assert Still(b, d);
    StillBroadcast(b, d, FullImageReady(b.sessionId, f.current));
    StillKeepsKinds(b, FullReturned(b, f, r).0);
  }

  lemma FittingPreview(b: Booth, f: Frame, r: Reply)
    requires Fitting(b, f) && f.point.FetchingPreview? && r.fault.None?
    ensures var (c, g) := PreviewReturned(b, f, r);
            After(b, c, g)
  {
    var d := b.(files := b.files + {Preview(f.current)});
    StillBroadcast(b, d, PreviewReady(b.sessionId, f.current, f.shotIndex, f.shotCount));
    StillKeepsKinds(b, PreviewReturned(b, f, r).0);
  }

  lemma FittingFault(b: Booth, f: Frame, message: string)
    requires Fitting(b, f)
    ensures var (c, g) := FailShot(b, f, message);
            After(b, c, g)
  {
    StillBroadcast(b, b.(cameraIdle := true), CaptureFailed(b.sessionId, message));
    StillKeepsKinds(b, FailShot(b, f, message).0);
  }

  lemma FittingCall(b: Booth, f: Frame, r: Reply)
    requires Fitting(b, f) && AtFallibleCall(f)
    ensures var (c, g) := Resume(b, f, r);
            After(b, c, g)
  {
    if r.fault.Some? {
      if f.point.Rendering? {
        assert Resume(b, f, r) == (b, At(f, Raised(RenderFault)));
      } else {
        FittingFault(b, f, r.fault.value);
        assert Resume(b, f, r) == FailShot(b, f, r.fault.value);
      }
    } else if f.point.Triggering? {
      FittingTrigger(b, f, r);
    } else if f.point.FetchingPreview? {
      FittingPreview(b, f, r);
    } else if f.point.FetchingFull? {
      FittingFull(b, f, r);
    } else {
      FittingRender(b, f, r);
    }
  }

  lemma FittingFullSent(b: Booth, f: Frame)
    requires Fitting(b, f) && f.point.FullSent?
    ensures var (c, g) := NextShot(b, f.(shotIndex := f.shotIndex + 1));
            After(b, c, g)
  {
    var g := f.(shotIndex := f.shotIndex + 1);
    assert Taken(f) == f.captureIds;
    if g.shotIndex < g.shotCount {
      StillTransition(b, COUNTDOWN, None);
      StillKeepsKinds(b, NextShot(b, g).0);
    } else if !b.templated || |g.captureIds| == 1 {
      assert RawShot(b, g.captureIds[0]);
      if b.sessionId in b.sessions {
        assert g.captureIds == [g.captureIds[0]];
      }
      FittingRawShot(b, g);
    }
  }

  /** The first raw shot is delivered. */
  lemma FittingRawShot(b: Booth, f: Frame)
    requires KindsOk(b) && |f.captureIds| > 0 && f.shotCount == b.shotCount
    requires b.sessionId in b.sessions ==>
               b.shotCount == 1 && f.captureIds == [f.captureIds[0]] && Open(b, f.captureIds)
    requires Counted(b, b.sessionId, b.shotCount) && RawShot(b, f.captureIds[0])
    ensures var (c, g) := Deliver(b, f, f.captureIds[0]);
            After(b, c, g)
  {
    if b.sessionId in b.sessions {
      DeliverKeepsKinds(b, f, f.captureIds[0]);
    } else {
      var (c, g) := Deliver(b, f, f.captureIds[0]);
      assert Still(b, c);
      StillKeepsKinds(b, c);
    }
  }

  lemma FittingComposite(b: Booth, f: Frame)
    requires Fitting(b, f) && f.point.CompositeSent?
    ensures var (c, g) := Deliver(b, f, f.current);
            After(b, c, g)
  {
    assert f.current !in f.captureIds;
    DeliverKeepsKinds(b, f, f.current);
  }

  lemma FittingTransit(b: Booth, f: Frame, target: SessionState)
    requires KindsOk(b) && FrameFits(b, f)
    ensures var t := Transition(b, target, None);
            var c := if t.None? then b else t.value;
            KindsOk(c) && Kept(b, c) && FrameFits(c, f)
  {
    StillTransition(b, target, None);
    var t := Transition(b, target, None);
    StillKeepsKinds(b, if t.None? then b else t.value);
  }

  lemma FittingCount(b: Booth, f: Frame)
    requires Fitting(b, f) && f.point.CountdownStateSent?
    ensures After(b, Broadcast(b, CountdownStarted(b.sessionId, f.shotIndex, f.shotCount)), At(f, CountdownSent))
  {
    CountKeepsKinds(b, f.shotIndex);
    var c := Broadcast(b, CountdownStarted(b.sessionId, f.shotIndex, f.shotCount));
    assert forall s: Id, n: nat :: Counted(b, s, n) ==> Counted(c, s, n);
    assert c.log[|b.log|] == CountdownStarted(b.sessionId, f.shotIndex, f.shotCount);
  }

  lemma FittingClose(b: Booth, f: Frame)
    requires Fitting(b, f) && f.point.PreviewSent?
    ensures After(b, b.(cameraIdle := false), At(f, FetchingFull))
  {
    StillKeepsKinds(b, b.(cameraIdle := false));
  }

  lemma FittingQuiet(b: Booth, f: Frame, r: Reply)
    requires Fitting(b, f) && !AtFallibleCall(f) && !Transits(f)
    ensures var (c, g) := Resume(b, f, r);
            After(b, c, g)
  {
    if f.point.CountdownStateSent? {
      FittingCount(b, f);
    } else if f.point.PreviewSent? {
      FittingClose(b, f);
    } else {
      FittingPause(b, f, r);
    }
  }

  lemma FittingPause(b: Booth, f: Frame, r: Reply)
    requires Fitting(b, f) && !AtFallibleCall(f) && !Transits(f)
    requires !f.point.CountdownStateSent? && !f.point.PreviewSent?
    ensures var (c, g) := Resume(b, f, r);
            After(b, c, g)
  {
    QuietEndSharing(b, f, r);
  }

  lemma FittingMove(b: Booth, f: Frame, r: Reply)
    requires Fitting(b, f) && Transits(f) && (f.point.Sleeping? ==> b.cameraIdle)
    ensures var (c, g) := Resume(b, f, r);
            After(b, c, g)
  {
    if f.point.FullSent? {
      FittingFullSent(b, f);
    } else if f.point.CompositeSent? {
      FittingComposite(b, f);
    } else if f.point.FailureSent? {
      FittingTransit(b, f, IDLE);
    } else {
      FittingTransit(b, f, CAPTURING);
    }
  }

  lemma FittingResume(b: Booth, f: Frame, r: Reply)
    requires Fitting(b, f)
    ensures var (c, g) := Resume(b, f, r);
            After(b, c, g)
  {
    if AtFallibleCall(f) {
      FittingCall(b, f, r);
    } else if f.point.Sleeping? && !b.cameraIdle {
      assert Resume(b, f, r) == (b, At(f, WaitingForCamera));
    } else if Transits(f) {
      FittingMove(b, f, r);
    } else {
      FittingQuiet(b, f, r);
    }
  }

  // ---------------------------------------------------------------- whole runs

  ghost predicate KindsHold(w: World) {
    KindsOk(w.booth) && (|w.captures| > 0 ==> FrameFits(w.booth, w.captures[|w.captures| - 1]))
  }

  ghost predicate KindsInv(w: World) {
    SharingInv(w) && KindsHold(w)
  }

  lemma WakeKeepsKinds(w: World, k: nat, reply: Reply)
    requires KindsInv(w)
    ensures KindsHold(Step(w, Wake(k, reply))) && Kept(w.booth, Step(w, Wake(k, reply)).booth)
  {
    var n := |w.captures|;
    if k < n - 1 {
      assert Finished(w.captures[k]) && Step(w, Wake(k, reply)).captures == w.captures;
    } else if k == n - 1 {
      FittingResume(w.booth, w.captures[k], reply);
    }
  }

  lemma DismissKeepsKinds(w: World)
    requires KindsInv(w)
    ensures KindsHold(Step(w, DismissNow)) && Kept(w.booth, Step(w, DismissNow).booth)
  {
    StillTransition(w.booth, IDLE, None);
    StillKeepsKinds(w.booth, Dismiss(w.booth));
  }

  lemma StartKeepsKinds(w: World)
    requires KindsInv(w)
    ensures KindsHold(Step(w, StartCapture)) && Kept(w.booth, Step(w, StartCapture).booth)
  {
    StillTransition(w.booth, COUNTDOWN, None);
    StillKeepsKinds(w.booth, Begin(w.booth).0);
  }

  lemma ArmsKeepKinds(w: World, slots: Option<SlotCount>)
    requires KindsInv(w) && Quiescent(w)
    ensures KindsHold(Step(w, ArmOk(slots))) && Kept(w.booth, Step(w, ArmOk(slots)).booth)
    ensures KindsHold(Step(w, ArmRaises)) && Kept(w.booth, Step(w, ArmRaises).booth)
  {
    ArmKeepsKinds(w.booth, slots);
    if |w.captures| > 0 {
      assert Finished(w.captures[|w.captures| - 1]);
    }
  }

  lemma StepKeepsKinds(w: World, a: Action)
    requires KindsInv(w) && Exclusive(w, a)
    ensures KindsInv(Step(w, a)) && Kept(w.booth, Step(w, a).booth)
  {
    StepSharing(w, a);
    match a
    case ArmOk(slots) => ArmsKeepKinds(w, slots);
    case ArmRaises => ArmsKeepKinds(w, None);
    case DismissNow => DismissKeepsKinds(w);
    case StartCapture => StartKeepsKinds(w);
    case Wake(k, reply) => WakeKeepsKinds(w, k, reply);
  }

  lemma {:induction false} RunKeepsKinds(w: World, actions: seq<Action>)
    requires KindsInv(w) && ExclusiveRun(w, actions)
    ensures KindsInv(Run(w, actions)) && Kept(w.booth, Run(w, actions).booth)
    decreases |actions|
  {
    if |actions| > 0 {
      StepKeepsKinds(w, actions[0]);
      RunKeepsKinds(Step(w, actions[0]), actions[1..]);
    }
  }

  /** In every run with at most one capture at a time, a session with a token was announced to take some number
      of shots, and what it lists is a raw shot if and only if that number is one: otherwise the composite. */
  lemma {:induction false} SharedSessionListsRightKind(queued: bool, actions: seq<Action>, s: Id)
    requires ExclusiveRun(Opening(queued), actions)
    requires HasToken(Run(Opening(queued), actions).booth, s)
    ensures var b := Run(Opening(queued), actions).booth;
            WasCounted(b, s) && AllRight(b, s)
  {
    assert KindsInv(Opening(queued));
    RunKeepsKinds(Opening(queued), actions);
  }

  /** A capture that enters its review lists for its session its one shot, or its composite, which is none of
      its shots; and what a session with a token lists is the same in every later state. */
  lemma {:induction false} ReviewedDeliverableStays(queued: bool, actions: seq<Action>, later: seq<Action>)
    requires ExclusiveRun(Opening(queued), actions) && ExclusiveRun(Run(Opening(queued), actions), later)
    ensures var w := Run(Opening(queued), actions);
            && (|w.captures| > 0 && w.captures[|w.captures| - 1].point.ReviewStateSent? ==>
                  ListsDeliverable(w.booth, w.captures[|w.captures| - 1]))
            && Kept(w.booth, Run(w, later).booth)
  {
    assert KindsInv(Opening(queued));
    RunKeepsKinds(Opening(queued), actions);
    RunKeepsKinds(Run(Opening(queued), actions), later);
  }
}
