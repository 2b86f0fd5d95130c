/**
 What a broadcast share token is worth.  `capture()` broadcasts the token with the REVIEW state whether or
 not the session has a row to keep it in, and a session has no row when the `arm()` that opened it raised.
 */
module SessionTokens {
  import opened Results
  import opened SessionProtocol
  import opened SessionSafety
  import opened SessionSharing
  import SessionTrace

  /** The guest was told token `t` for session `s`. */
  predicate Announced(b: Booth, s: Id, t: Id) {
    StateChanged(s, REVIEW, Some(t)) in b.log
  }

  /** `arm()` broadcasts ARMED last, after it has written the row. */
  predicate ArmAnnounced(b: Booth, s: Id) {
    StateChanged(s, ARMED, None) in b.log
  }

  /** `/s/{t}` finds session `s`. */
  predicate Resolves(b: Booth, t: Id, s: Id) {
    s in b.sessions && b.sessions[s].shareToken == Some(t)
  }

  ghost predicate RowsAnnounced(b: Booth) {
    forall s: Id :: s in b.sessions <==> ArmAnnounced(b, s)
  }

  ghost predicate AnnouncedOk(b: Booth, s: Id, t: Id) {
    && s < b.nextId && t < b.nextId
    && (s in b.sessions ==> b.sessions[s].shareToken == Some(t))
    && (forall r: Id :: Resolves(b, t, r) ==> r == s)
  }

  ghost predicate TokensOk(b: Booth) {
    && RowsAnnounced(b)
    && (forall s: Id, t: Id :: Announced(b, s, t) ==> AnnouncedOk(b, s, t))
    && (forall s: Id, t: Id :: Resolves(b, t, s) ==> t < b.nextId)
  }

  predicate QuietEvent(e: Event) {
    e.StateChanged? ==> e.state != ARMED && (e.state == REVIEW ==> e.shareToken.None?)
  }

  /** Rows and tokens are the same, and at most one event that is neither an ARMED nor a token was broadcast. */
  ghost predicate Quiet(b: Booth, c: Booth) {
    && b.nextId <= c.nextId && c.sessions.Keys == b.sessions.Keys
    && (forall s | s in b.sessions :: c.sessions[s].shareToken == b.sessions[s].shareToken)
    && (c.log == b.log || exists e :: QuietEvent(e) && c.log == b.log + [e])
  }

  lemma QuietKeepsTokens(b: Booth, c: Booth)
    requires TokensOk(b) && Quiet(b, c)
    ensures TokensOk(c)
  {
    forall s: Id, t: Id ensures Announced(c, s, t) <==> Announced(b, s, t) {
    }
    forall s: Id ensures ArmAnnounced(c, s) <==> ArmAnnounced(b, s) {
    }
    forall s: Id, t: Id ensures Resolves(c, t, s) <==> Resolves(b, t, s) {
    }
    assert RowsAnnounced(c);
    forall s: Id, t: Id | Announced(c, s, t) ensures AnnouncedOk(c, s, t) {
      assert AnnouncedOk(b, s, t);
    }
  }

  lemma QuietTransition(b: Booth, target: SessionState, token: Option<Id>)
    requires target != ARMED && (target == REVIEW ==> token.None?)
    ensures var t := Transition(b, target, token);
            Quiet(b, if t.None? then b else t.value)
  {
    assert QuietEvent(StateChanged(b.sessionId, target, token));
  }

  /** The resumption may issue a token. */
  predicate MayIssue(f: Frame) {
    f.point.CompositeSent? || (f.point.FullSent? && f.shotIndex + 1 >= f.shotCount)
  }

  lemma QuietTransit(b: Booth, f: Frame, r: Reply)
    requires Transits(f) && !MayIssue(f)
    ensures Quiet(b, Resume(b, f, r).0)
  {
    if f.point.FullSent? {
      QuietTransition(b, COUNTDOWN, None);
    } else if f.point.FailureSent? {
      QuietTransition(b, IDLE, None);
    } else {
      QuietTransition(b, CAPTURING, None);
    }
  }

  lemma QuietBroadcast(b: Booth, c: Booth, e: Event)
    requires c.sessions == b.sessions && c.log == b.log && b.nextId <= c.nextId && QuietEvent(e)
    ensures Quiet(b, c) && Quiet(b, Broadcast(c, e))
  {
  }

  lemma QuietCall(b: Booth, f: Frame, r: Reply)
    requires AtFallibleCall(f)
    ensures Quiet(b, Resume(b, f, r).0)
  {
    if r.fault.Some? {
      QuietBroadcast(b, b.(cameraIdle := true), CaptureFailed(b.sessionId, r.fault.value));
    } else if f.point.Triggering? {
      assert Resume(b, f, r) == TriggerReturned(b, f, r);
    } else if f.point.FetchingPreview? {
      QuietBroadcast(b, b.(files := b.files + {Preview(f.current)}),
                     PreviewReady(b.sessionId, f.current, f.shotIndex, f.shotCount));
    } else if f.point.FetchingFull? {
      assert Resume(b, f, r) == FullReturned(b, f, r);
      assert QuietEvent(FullImageReady(b.sessionId, f.current));
    } else {
      assert Resume(b, f, r) == RenderReturned(b, f, r);
      assert QuietEvent(FullImageReady(b.sessionId, b.nextId));
    }
  }

  lemma QuietResume(b: Booth, f: Frame, r: Reply)
    requires !MayIssue(f)
    ensures Quiet(b, Resume(b, f, r).0)
  {
    if AtFallibleCall(f) {
      QuietCall(b, f, r);
    } else if f.point.Sleeping? && !b.cameraIdle {
      assert Resume(b, f, r) == (b, At(f, WaitingForCamera));
    } else if Transits(f) {
      QuietTransit(b, f, r);
    } else if f.point.CountdownStateSent? {
      assert QuietEvent(CountdownStarted(b.sessionId, f.shotIndex, f.shotCount));
    }
  }

  // ---------------------------------------------------------------- the steps that are not quiet

  lemma ArmKeepsTokens(b: Booth, slots: Option<SlotCount>)
    requires TokensOk(b) && IdsBounded(b)
    ensures TokensOk(Arm(b, slots)) && TokensOk(ArmRaising(b))
  {
    QuietKeepsTokens(b, ArmRaising(b));
    if b.state == IDLE {
      var c, e := Arm(b, slots), StateChanged(b.nextId, ARMED, None);
      assert c.log == b.log + [e];
      forall s: Id ensures s in c.sessions <==> ArmAnnounced(c, s) {
        assert ArmAnnounced(c, s) <==> ArmAnnounced(b, s) || s == b.nextId;
      }
      forall s: Id, t: Id ensures Resolves(c, t, s) <==> Resolves(b, t, s) {
      }
      forall s: Id, t: Id | Announced(c, s, t) ensures AnnouncedOk(c, s, t) {
        assert Announced(b, s, t) && AnnouncedOk(b, s, t);
      }
    }
  }

  lemma IssueKeepsTokens(b: Booth, id: Id)
    requires TokensOk(b) && b.sessionId < b.nextId && !HasToken(b, b.sessionId)
    ensures TokensOk(IssueToken(b, id).0)
    ensures b.queued ==> AnnouncedOk(IssueToken(b, id).0, b.sessionId, b.nextId)
  {
    if b.queued {
      var c, token := IssueToken(b, id).0, b.nextId;
      forall s: Id ensures ArmAnnounced(c, s) <==> ArmAnnounced(b, s) {
      }
      forall s: Id, t: Id
        ensures Resolves(c, t, s) <==> Resolves(b, t, s) || (t == token && s == b.sessionId && s in b.sessions)
      {
      }
      forall s: Id, t: Id | Announced(c, s, t) ensures AnnouncedOk(c, s, t) {
        assert Announced(b, s, t) && AnnouncedOk(b, s, t);
      }
    }
  }

  lemma DeliverKeepsTokens(b: Booth, f: Frame, id: Id)
    requires TokensOk(b) && b.sessionId < b.nextId && !HasToken(b, b.sessionId)
    ensures TokensOk(Deliver(b, f, id).0)
  {
    var d := b.(deliverables := [id]);
    QuietKeepsTokens(b, d);
    IssueKeepsTokens(d, id);
    var (issued, token) := IssueToken(d, id);
    var t := Transition(issued, REVIEW, token);
    if token.None? {
      QuietTransition(issued, REVIEW, token);
      QuietKeepsTokens(issued, if t.None? then issued else t.value);
    } else if t.Some? {
      AnnounceKeepsTokens(issued, t.value, token.value);
    }
  }

  lemma AnnounceKeepsTokens(b: Booth, c: Booth, t: Id)
    requires TokensOk(b) && AnnouncedOk(b, b.sessionId, t)
    requires c == b.(state := REVIEW, sessions := UpdateState(b.sessions, b.sessionId, REVIEW),
                     log := b.log + [StateChanged(b.sessionId, REVIEW, Some(t))])
    ensures TokensOk(c)
  {
    forall s: Id ensures ArmAnnounced(c, s) <==> ArmAnnounced(b, s) {
    }
    forall s: Id, u: Id ensures Resolves(c, u, s) <==> Resolves(b, u, s) {
    }
    forall s: Id, u: Id | Announced(c, s, u) ensures AnnouncedOk(c, s, u) {
      assert Announced(b, s, u) || (s == b.sessionId && u == t);
      assert AnnouncedOk(b, s, u);
    }
  }

  // ---------------------------------------------------------------- whole runs

  lemma ResumeKeepsTokens(b: Booth, f: Frame, r: Reply)
    requires TokensOk(b) && CaptureOk(b, f)
    ensures TokensOk(Resume(b, f, r).0)
  {
    if !MayIssue(f) {
      QuietResume(b, f, r);
      QuietKeepsTokens(b, Resume(b, f, r).0);
    } else if f.point.CompositeSent? {
      DeliverKeepsTokens(b, f, f.current);
    } else if b.templated && |f.captureIds| != 1 {
      assert Resume(b, f, r).0 == b;
    } else {
      DeliverKeepsTokens(b, f.(shotIndex := f.shotIndex + 1), f.captureIds[0]);
    }
  }

  lemma StepKeepsTokens(w: World, a: Action)
    requires SharingInv(w) && Exclusive(w, a) && TokensOk(w.booth)
    ensures TokensOk(Step(w, a).booth)
  {
    match a
    case ArmOk(slots) => ArmKeepsTokens(w.booth, slots);
    case ArmRaises => ArmKeepsTokens(w.booth, None);
    case DismissNow =>
      QuietTransition(w.booth, IDLE, None);
      QuietKeepsTokens(w.booth, Dismiss(w.booth));
    case StartCapture =>
      QuietTransition(w.booth, COUNTDOWN, None);
      QuietKeepsTokens(w.booth, Begin(w.booth).0);
    case Wake(k, reply) =>
      if k < |w.captures| - 1 {
        assert Finished(w.captures[k]);
      } else if k == |w.captures| - 1 {
        ResumeKeepsTokens(w.booth, w.captures[k], reply);
      }
  }

  lemma {:induction false} RunKeepsTokens(w: World, actions: seq<Action>)
    requires SharingInv(w) && ExclusiveRun(w, actions) && TokensOk(w.booth)
    ensures TokensOk(Run(w, actions).booth)
    decreases |actions|
  {
    if |actions| > 0 {
      StepSharing(w, actions[0]);
      StepKeepsTokens(w, actions[0]);
      RunKeepsTokens(Step(w, actions[0]), actions[1..]);
    }
  }

  /** Somewhere in the run session `s` was opened by an arm() that returned normally. */
  predicate ArmedNormally(w: World, actions: seq<Action>, s: Id)
    decreases |actions|
  {
    |actions| > 0 &&
      ((actions[0].ArmOk? && w.booth.state == IDLE && w.booth.nextId == s) ||
       ArmedNormally(Step(w, actions[0]), actions[1..], s))
  }

  lemma ArmEvents(w: World, a: Action, s: Id)
    ensures ArmAnnounced(Step(w, a).booth, s) <==>
              ArmAnnounced(w.booth, s) || (a.ArmOk? && w.booth.state == IDLE && w.booth.nextId == s)
  {
    match a
    case DismissNow => QuietTransition(w.booth, IDLE, None);
    case StartCapture => QuietTransition(w.booth, COUNTDOWN, None);
    case Wake(k, reply) =>
      if k < |w.captures| {
        ResumeArmsNothing(w.booth, w.captures[k], reply, s);
      }
    case _ =>
  }

  lemma ResumeArmsNothing(b: Booth, f: Frame, r: Reply, s: Id)
    ensures ArmAnnounced(Resume(b, f, r).0, s) <==> ArmAnnounced(b, s)
  {
    if !MayIssue(f) {
      QuietResume(b, f, r);
    } else {
      DeliverArmsNothing(b, f, f.current, s);
      if |f.captureIds| > 0 {
        DeliverArmsNothing(b, f.(shotIndex := f.shotIndex + 1), f.captureIds[0], s);
      }
    }
  }

  lemma DeliverArmsNothing(b: Booth, f: Frame, id: Id, s: Id)
    ensures ArmAnnounced(Deliver(b, f, id).0, s) <==> ArmAnnounced(b, s)
  {
  }

  lemma {:induction false} RowsComeFromArms(w: World, actions: seq<Action>, s: Id)
    ensures ArmAnnounced(Run(w, actions).booth, s) <==> ArmAnnounced(w.booth, s) || ArmedNormally(w, actions, s)
    decreases |actions|
  {
    if |actions| > 0 {
      ArmEvents(w, actions[0], s);
      RowsComeFromArms(Step(w, actions[0]), actions[1..], s);
    }
  }

  /** In every run with at most one capture at a time, a token that was broadcast for a session leads to that
      session, and only to it, if and only if the arm() that opened it returned normally.  After an arm() that
      raised the guest is shown a token that is a 404. */
  lemma {:induction false} TokenLeadsToSession(queued: bool, actions: seq<Action>, s: Id, t: Id, r: Id)
    requires ExclusiveRun(Opening(queued), actions)
    requires Announced(Run(Opening(queued), actions).booth, s, t)
    ensures Resolves(Run(Opening(queued), actions).booth, t, r)
            <==> r == s && ArmedNormally(Opening(queued), actions, s)
  {
    var w := Opening(queued);
    assert SharingInv(w);
    RunKeepsTokens(w, actions);
    RowsComeFromArms(w, actions, s);
    var b := Run(w, actions).booth;
    assert AnnouncedOk(b, s, t);
    assert s in b.sessions <==> ArmAnnounced(b, s);
  }

  // ---------------------------------------------------------------- a capture after an arm() that raised

  /** The table has grown by a row for each of these shots. */
  ghost predicate RowsAdded(before: seq<CaptureRow>, after: seq<CaptureRow>, ids: seq<Id>, session: Id,
                            deliverable: bool)
  {
    && |after| == |before| + |ids|
    && (forall i | 0 <= i < |before| :: after[i] == before[i])
    && (forall i | 0 <= i < |ids| :: after[|before| + i] == CaptureRow(ids[i], session, deliverable))
  }

  /** The shots this frame has made rows for. */
  function Shots(f: Frame): seq<Id> {
    f.captureIds + (if ShotTaken(f) then [f.current] else [])
  }

  /** The session was reviewed with its first raw shot as the deliverable. */
  ghost predicate FirstShotDelivered(b0: Booth, b: Booth, f: Frame) {
    && |f.captureIds| > 0
    && b.deliverables == [f.captureIds[0]]
    && b.uploads == b0.uploads +
         (if b.queued then [Upload(Full(f.captureIds[0]), RemoteKey(f.captureIds[0]), f.captureIds[0])] else [])
    && (b.queued ==> b.nextId > 0 && Announced(b, b.sessionId, b.nextId - 1))
  }

  /** The session has no row and no template: what is true at every await of its capture(). */
  ghost predicate Unrecorded(b0: Booth, b: Booth, f: Frame) {
    && !b.templated && b.sessionId !in b.sessions && b.queued == b0.queued
    && !f.point.Rendering? && !f.point.CompositeSent?
    && (!Failing(f) ==> RowsAdded(b0.captures, b.captures, Shots(f), b.sessionId, f.shotCount == 1))
    && (!Failing(f) && !AfterReview(f) ==> b.uploads == b0.uploads)
    && (AfterReview(f) ==> FirstShotDelivered(b0, b, f))
  }

  lemma UnrecordedDeliver(b0: Booth, b: Booth, f: Frame)
    requires !b.templated && b.sessionId !in b.sessions && b.queued == b0.queued && |f.captureIds| > 0
    requires RowsAdded(b0.captures, b.captures, f.captureIds, b.sessionId, f.shotCount == 1) && b.uploads == b0.uploads
    ensures var (c, g) := Deliver(b, f, f.captureIds[0]);
            Unrecorded(b0, c, g)
  {
    var (issued, token) := IssueToken(b.(deliverables := [f.captureIds[0]]), f.captureIds[0]);
    assert f.captureIds + [] == f.captureIds;
    assert b0.uploads + [] == b0.uploads;
    if b.queued && Transition(issued, REVIEW, token).Some? {
      var c := Transition(issued, REVIEW, token).value;
      assert c.log[|b.log|] == StateChanged(b.sessionId, REVIEW, token);
    }
  }

  lemma UnrecordedNextShot(b0: Booth, b: Booth, f: Frame)
    requires !b.templated && b.sessionId !in b.sessions && b.queued == b0.queued
    requires f.shotIndex == |f.captureIds| <= f.shotCount
    requires RowsAdded(b0.captures, b.captures, f.captureIds, b.sessionId, f.shotCount == 1) && b.uploads == b0.uploads
    ensures var (c, g) := NextShot(b, f);
            Unrecorded(b0, c, g)
  {
    assert f.captureIds + [] == f.captureIds;
    if f.shotIndex == f.shotCount {
      UnrecordedDeliver(b0, b, f);
    }
  }

  lemma UnrecordedTrigger(b0: Booth, b: Booth, f: Frame, r: Reply)
    requires Unrecorded(b0, b, f) && f.point.Triggering? && r.fault.None?
    ensures var (c, g) := TriggerReturned(b, f, r);
            Unrecorded(b0, c, g)
  {
    assert f.captureIds + [] == f.captureIds;
  }

  lemma UnrecordedFull(b0: Booth, b: Booth, f: Frame, r: Reply)
    requires Unrecorded(b0, b, f) && f.point.FetchingFull? && r.fault.None?
    ensures var (c, g) := FullReturned(b, f, r);
            Unrecorded(b0, c, g)
  {
    assert Shots(FullReturned(b, f, r).1) == Shots(f);
  }

  lemma UnrecordedPreview(b0: Booth, b: Booth, f: Frame, r: Reply)
    requires Unrecorded(b0, b, f) && f.point.FetchingPreview? && r.fault.None?
    ensures var (c, g) := PreviewReturned(b, f, r);
            Unrecorded(b0, c, g)
  {
  }

  lemma UnrecordedFault(b0: Booth, b: Booth, f: Frame, message: string)
    requires Unrecorded(b0, b, f)
    ensures var (c, g) := FailShot(b, f, message);
            Unrecorded(b0, c, g)
  {
  }

  lemma UnrecordedCall(b0: Booth, b: Booth, f: Frame, r: Reply)
    requires Unrecorded(b0, b, f) && AtFallibleCall(f)
    ensures var (c, g) := Resume(b, f, r);
            Unrecorded(b0, c, g)
  {
    if r.fault.Some? {
      UnrecordedFault(b0, b, f, r.fault.value);
      assert Resume(b, f, r) == FailShot(b, f, r.fault.value);
    } else if f.point.Triggering? {
      UnrecordedTrigger(b0, b, f, r);
    } else if f.point.FetchingPreview? {
      UnrecordedPreview(b0, b, f, r);
    } else {
      UnrecordedFull(b0, b, f, r);
    }
  }

  lemma UnrecordedFullSent(b0: Booth, b: Booth, f: Frame)
    requires Unrecorded(b0, b, f) && ShotsComplete(f) && f.point.FullSent?
    ensures var (c, g) := NextShot(b, f.(shotIndex := f.shotIndex + 1));
            Unrecorded(b0, c, g)
  {
    assert f.captureIds + [] == f.captureIds;
    UnrecordedNextShot(b0, b, f.(shotIndex := f.shotIndex + 1));
  }

  lemma UnrecordedEnter(b0: Booth, b: Booth, f: Frame)
    requires Unrecorded(b0, b, f) && (f.point.Sleeping? || f.point.WaitingForCamera?)
    ensures var (c, g) := EnterCapturing(b, f);
            Unrecorded(b0, c, g)
  {
    assert Shots(EnterCapturing(b, f).1) == Shots(f);
  }

  lemma UnrecordedResume(b0: Booth, b: Booth, f: Frame, r: Reply)
    requires Unrecorded(b0, b, f) && ShotsComplete(f)
    ensures var (c, g) := Resume(b, f, r);
            Unrecorded(b0, c, g)
  {
    if AtFallibleCall(f) {
      UnrecordedCall(b0, b, f, r);
    } else if f.point.Sleeping? && !b.cameraIdle {
      assert Resume(b, f, r) == (b, At(f, WaitingForCamera));
    } else if f.point.Sleeping? || f.point.WaitingForCamera? {
      UnrecordedEnter(b0, b, f);
    } else if f.point.FullSent? {
      UnrecordedFullSent(b0, b, f);
    } else {
      UnrecordedQuiet(b0, b, f, r);
    }
  }

  lemma UnrecordedQuiet(b0: Booth, b: Booth, f: Frame, r: Reply)
    requires Unrecorded(b0, b, f) && !AtFallibleCall(f)
    requires !f.point.FullSent? && !f.point.Sleeping? && !f.point.WaitingForCamera?
    ensures var (c, g) := Resume(b, f, r);
            Unrecorded(b0, c, g)
  {
    if f.point.PreviewSent? {
      assert Resume(b, f, r) == (b.(cameraIdle := false), At(f, FetchingFull));
    } else if Failing(f) || AfterReview(f) {
      UnrecordedEnding(b0, b, f, r);
    }
  }

  lemma UnrecordedEnding(b0: Booth, b: Booth, f: Frame, r: Reply)
    requires Unrecorded(b0, b, f) && (Failing(f) || AfterReview(f))
    ensures var (c, g) := Resume(b, f, r);
            Unrecorded(b0, c, g)
  {
    if f.point.FailureSent? {
      assert Resume(b, f, r) == FailureBroadcast(b, f, f.point.message);
    } else {
      assert Resume(b, f, r).0 == b;
    }
  }

  lemma {:induction false} UnrecordedRun(b0: Booth, w: World, actions: seq<Action>)
    requires SoloWorld(b0, w) && Unrecorded(b0, w.booth, w.captures[0]) && AllSolo(actions)
    ensures SoloWorld(b0, Run(w, actions)) && Unrecorded(b0, Run(w, actions).booth, Run(w, actions).captures[0])
    decreases |actions|
  {
    if |actions| > 0 {
      SoloStep(b0, w, actions[0]);
      if actions[0].Wake? {
        UnrecordedResume(b0, w.booth, w.captures[0], actions[0].reply);
      } else {
        assert Unrecorded(b0, Dismiss(w.booth), w.captures[0]);
      }
      UnrecordedRun(b0, Step(w, actions[0]), actions[1..]);
    }
  }

  lemma {:induction false} ListOfAddedRows(before: seq<CaptureRow>, after: seq<CaptureRow>, ids: seq<Id>, session: Id,
                                           deliverable: bool)
    requires RowsAdded(before, after, ids, session, deliverable)
    requires forall k | 0 <= k < |before| :: before[k].session != session
    requires deliverable ==> |ids| <= 1
    ensures ListBySession(after, session) == if deliverable then ids else []
    decreases |ids|
  {
    if |ids| == 0 {
      NoCaptureYet(after, session);
    } else {
      var n := |ids| - 1;
      assert after[|after| - 1] == after[|before| + n] == CaptureRow(ids[n], session, deliverable);
      ListOfAddedRows(before, after[..|after| - 1], ids[..n], session, deliverable);
    }
  }

  /** What a capture() after an arm() that raised comes to, with dismisses at any await.  It takes as many shots
      as the session before had slots; when it reaches its review, the first raw shot has been delivered and
      queued for upload, and the token that was broadcast is of a session without a row.  With one slot that
      shot is the session's listed deliverable; with more nothing is listed, and there is no composite. */
  lemma {:induction false} CaptureAfterFailedArm(b: Booth, actions: seq<Action>)
    requires b.state == IDLE && b.cameraIdle && IdsBounded(b) && AllSolo(actions)
    ensures var b0 := ArmRaising(b);
            var w := Run(Step(World(b0, []), StartCapture), actions);
            |w.captures| == 1 &&
            var c, f := w.booth, w.captures[0];
            AfterReview(f) ==>
              && |f.captureIds| == b.shotCount && c.sessionId == b.nextId && c.sessionId !in c.sessions
              && FirstShotDelivered(b, c, f)
              && ListBySession(c.captures, c.sessionId) == (if b.shotCount == 1 then f.captureIds else [])
  {
    var b0 := ArmRaising(b);
    BeginsWell(b0);
    var f0 := Frame(CountdownStateSent, 0, b0.shotCount, [], 0);
    UnrecordedNextShot(b0, b0, f0);
    var w0 := Step(World(b0, []), StartCapture);
    UnrecordedRun(b0, w0, actions);
    var w := Run(w0, actions);
    var f := w.captures[0];
    if AfterReview(f) {
      assert Shots(f) == f.captureIds;
      ListOfAddedRows(b.captures, w.booth.captures, f.captureIds, b.nextId, f.shotCount == 1);
    }
  }

  /** And it does come to that: with a queue and nobody interfering, a capture() after an arm() that raised
      returns normally exactly when every shot was taken, and the token it has then broadcast is one that no row
      will ever hold. */
  lemma {:induction false} FailedArmStillAnnounces(b: Booth, env: SessionTrace.Surroundings)
    requires b.state == IDLE && b.cameraIdle && b.queued && SessionTrace.Undisturbed(env)
    ensures var b0 := ArmRaising(b);
            var (c, g) := SessionTrace.DriveFrom(Begin(b0), env);
            && (g.point == Returned <==> SessionTrace.AllTaken(env, 0, b.shotCount))
            && (g.point == Returned ==> Announced(c, b0.sessionId, b0.nextId + b.shotCount))
  {
    var b0 := ArmRaising(b);
    SessionTrace.TraceFromLoopHead(b0, SessionTrace.FirstFrame(b0), env);
    var (c, g) := SessionTrace.DriveFrom(Begin(b0), env);
    assert SessionTrace.EndsAsExpected(b0, SessionTrace.FirstFrame(b0), env, c, g);
    EndAnnounces(b0, env, c, g);
  }

  lemma EndAnnounces(b: Booth, env: SessionTrace.Surroundings, c: Booth, g: Frame)
    requires !b.templated && b.queued && SessionTrace.EndsAsExpected(b, SessionTrace.FirstFrame(b), env, c, g)
    ensures g.point == Returned <==> SessionTrace.AllTaken(env, 0, b.shotCount)
    ensures g.point == Returned ==> Announced(c, b.sessionId, b.nextId + b.shotCount)
  {
    if SessionTrace.AllTaken(env, 0, b.shotCount) {
      var outcomes, renderFails := SessionTrace.Outcomes(env), env(b.shotCount, Rendering).reply.fault.Some?;
      LastEventAnnounces(b.sessionId, b.nextId, 0, b.shotCount, outcomes, renderFails);
      var events :=
        SessionTrace.ExpectedEvents(b.sessionId, b.nextId, 0, b.shotCount, false, true, outcomes, renderFails);
      assert c.log == b.log + events;
      assert c.log[|c.log| - 1] == events[|events| - 1];
    }
  }

  lemma {:induction false} LastEventAnnounces(session: Id, id: Id, i: nat, n: nat,
                                              outcomes: nat -> SessionTrace.Outcome, renderFails: bool)
    requires i <= n && forall k | i <= k < n :: outcomes(k).Taken?
    ensures var events := SessionTrace.ExpectedEvents(session, id, i, n, false, true, outcomes, renderFails);
            |events| > 0 && events[|events| - 1] == StateChanged(session, REVIEW, Some(id + n - i))
    decreases n - i
  {
    if i < n {
      var rest := SessionTrace.ExpectedEvents(session, id + 1, i + 1, n, false, true, outcomes, renderFails);
      var shot := SessionTrace.ShotEvents(session, id, i, n, outcomes(i));
      LastEventAnnounces(session, id + 1, i + 1, n, outcomes, renderFails);
      assert SessionTrace.ExpectedEvents(session, id, i, n, false, true, outcomes, renderFails) == shot + rest;
    }
  }
}
