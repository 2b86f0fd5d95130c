/**
 A session with a share token has exactly one deliverable, and its QR code leads to the file that was
 queued for upload.  Runs in which at most one capture() is under way: arms and further captures wait for
 it to end, dismisses may come at any await.
 */
module SessionSharing {
  import opened Results
  import opened SessionProtocol
  import opened SessionSafety

  // ---------------------------------------------------------------- queries

  /** `list_by_session`: the deliverable rows of a session, most recent first. */
  function ListBySession(captures: seq<CaptureRow>, session: Id): seq<Id> {
    if |captures| == 0 then []
    else
      var last := captures[|captures| - 1];
      (if last.session == session && last.deliverable then [last.id] else [])
      + ListBySession(captures[..|captures| - 1], session)
  }

  function UploadsOf(uploads: seq<Upload>, id: Id): seq<Upload> {
    if |uploads| == 0 then []
    else
      var last := uploads[|uploads| - 1];
      UploadsOf(uploads[..|uploads| - 1], id) + (if last.captureId == id then [last] else [])
  }

  lemma ListAppend(captures: seq<CaptureRow>, row: CaptureRow, session: Id)
    ensures ListBySession(captures + [row], session)
         == (if row.session == session && row.deliverable then [row.id] else []) + ListBySession(captures, session)
  {
    assert (captures + [row])[..|captures|] == captures;
  }

  lemma UploadsAppend(uploads: seq<Upload>, upload: Upload, id: Id)
    ensures UploadsOf(uploads + [upload], id)
         == UploadsOf(uploads, id) + (if upload.captureId == id then [upload] else [])
  {
    assert (uploads + [upload])[..|uploads|] == uploads;
  }

  lemma {:induction false} NoUploadYet(uploads: seq<Upload>, id: Id)
    requires forall k | 0 <= k < |uploads| :: uploads[k].captureId != id
    ensures UploadsOf(uploads, id) == []
  {
    if |uploads| > 0 {
      NoUploadYet(uploads[..|uploads| - 1], id);
    }
  }

  lemma {:induction false} NoCaptureYet(captures: seq<CaptureRow>, session: Id)
    requires forall k | 0 <= k < |captures| :: captures[k].session != session
    ensures ListBySession(captures, session) == []
  {
    if |captures| > 0 {
      NoCaptureYet(captures[..|captures| - 1], session);
    }
  }

  lemma {:induction false} ListedRowExists(captures: seq<CaptureRow>, session: Id, id: Id) returns (k: nat)
    requires id in ListBySession(captures, session)
    ensures k < |captures| && captures[k] == CaptureRow(id, session, true)
  {
    k := |captures| - 1;
    if captures[k] != CaptureRow(id, session, true) {
      k := ListedRowExists(captures[..|captures| - 1], session, id);
    }
  }

  // ---------------------------------------------------------------- what a shared session has

  ghost predicate Shared(b: Booth, s: Id) {
    var listed := ListBySession(b.captures, s);
    && |listed| == 1
    && Full(listed[0]) in b.files
    && UploadsOf(b.uploads, listed[0]) == [Upload(Full(listed[0]), RemoteKey(listed[0]), listed[0])]
  }

  predicate HasToken(b: Booth, s: Id) {
    s in b.sessions && b.sessions[s].shareToken.Some?
  }

  ghost predicate TokensShared(b: Booth) {
    forall s | s in b.sessions && HasToken(b, s) :: Shared(b, s)
  }

  ghost predicate IdsBounded(b: Booth) {
    && b.sessionId < b.nextId
    && (forall s | s in b.sessions :: s < b.nextId)
    && (forall k | 0 <= k < |b.captures| :: b.captures[k].id < b.nextId && b.captures[k].session < b.nextId)
    && (forall k | 0 <= k < |b.uploads| :: b.uploads[k].captureId < b.nextId)
  }

  /** The id is of a capture of the current session that no upload job names. */
  ghost predicate Undelivered(b: Booth, id: Id) {
    && id < b.nextId
    && UploadsOf(b.uploads, id) == []
    && (forall k | 0 <= k < |b.captures| && b.captures[k].id == id :: b.captures[k].session == b.sessionId)
  }

  ghost predicate AllUndelivered(b: Booth, ids: seq<Id>) {
    forall k | 0 <= k < |ids| :: Undelivered(b, ids[k])
  }

  /** The captures this frame has made so far. */
  function Taken(f: Frame): seq<Id> {
    f.captureIds + (if ShotTaken(f) || f.point.CompositeSent? then [f.current] else [])
  }

  /** The deliverables that the capture has produced so far. */
  function Produced(f: Frame): seq<Id> {
    if f.point.CompositeSent? then [f.current]
    else if f.shotCount > 1 then []
    else if ShotTaken(f) then [f.current] else f.captureIds
  }

  /** The current session if its row was written: it can still get a token. */
  ghost predicate Open(b: Booth, produced: seq<Id>) {
    b.sessionId in b.sessions ==>
      && b.sessions[b.sessionId].shareToken.None?
      && (b.shotCount > 1 ==> b.templated)
      && ListBySession(b.captures, b.sessionId) == produced
  }

  ghost predicate FrameOk(b: Booth, f: Frame) {
    && f.shotCount == b.shotCount
    && ShotsComplete(f)
    && (b.state == ExpectedState(f.point) || b.state == IDLE)
    && FilesWritten(b, f.captureIds)
    && (f.point.CompositeSent? ==> Full(f.current) in b.files)
    && (f.point.Rendering? || f.point.CompositeSent? ==> f.shotCount > 1)
    && (!f.point.ReviewStateSent? && !Failing(f) ==>
          Open(b, Produced(f)) && AllUndelivered(b, Taken(f)))
  }

  /** No capture is under way. */
  ghost predicate AtRest(b: Booth) {
    b.state == ARMED || b.state == CAPTURING ==> Open(b, [])
  }

  ghost predicate BoothOk(b: Booth) {
    IdsBounded(b) && TokensShared(b)
  }

  ghost predicate CaptureOk(b: Booth, f: Frame) {
    BoothOk(b) && (if Finished(f) then AtRest(b) else FrameOk(b, f))
  }

  ghost predicate SharingInv(w: World) {
    && (forall k | 0 <= k < |w.captures| - 1 :: Finished(w.captures[k]))
    && BoothOk(w.booth)
    && (if |w.captures| == 0 then AtRest(w.booth) else CaptureOk(w.booth, w.captures[|w.captures| - 1]))
  }

  predicate Quiescent(w: World) {
    forall k | 0 <= k < |w.captures| :: Finished(w.captures[k])
  }

  /** At most one capture() at a time, and no arm() during one. */
  predicate Exclusive(w: World, a: Action) {
    a.DismissNow? || a.Wake? || Quiescent(w)
  }

  predicate ExclusiveRun(w: World, actions: seq<Action>)
    decreases |actions|
  {
    |actions| == 0 || (Exclusive(w, actions[0]) && ExclusiveRun(Step(w, actions[0]), actions[1..]))
  }

  // ---------------------------------------------------------------- booth-level steps

  /** Nothing that matters for sharing changed, except that files may have been added. */
  lemma SameSharing(b: Booth, c: Booth)
    requires BoothOk(b)
    requires c.sessionId == b.sessionId && c.nextId == b.nextId && c.captures == b.captures && c.uploads == b.uploads
    requires b.files <= c.files && c.sessions.Keys == b.sessions.Keys
    requires forall s | s in b.sessions :: c.sessions[s].shareToken == b.sessions[s].shareToken
    ensures BoothOk(c)
  {
    forall s | s in c.sessions && HasToken(c, s)
      ensures Shared(c, s)
    {
      assert HasToken(b, s);
    }
  }

  lemma TransitionSharing(b: Booth, target: SessionState, token: Option<Id>)
    requires BoothOk(b)
    ensures Transition(b, target, token).Some? ==> BoothOk(Transition(b, target, token).value)
    ensures Transition(b, target, token).Some? ==>
              var c := Transition(b, target, token).value;
              && c.sessions.Keys == b.sessions.Keys
              && (forall s | s in b.sessions :: c.sessions[s].shareToken == b.sessions[s].shareToken)
  {
    if Transition(b, target, token).Some? {
      SameSharing(b, Transition(b, target, token).value);
    }
  }

  function Created(b: Booth, deliverable: bool, files: set<FileName>): Booth {
    b.(nextId := b.nextId + 1, files := files,
       captures := b.captures + [CaptureRow(b.nextId, b.sessionId, deliverable)])
  }

  /** A capture row of the current session, which has no token yet, is written under a fresh id. */
  lemma CreateSharing(b: Booth, deliverable: bool, files: set<FileName>)
    requires BoothOk(b) && !HasToken(b, b.sessionId) && b.files <= files
    ensures BoothOk(Created(b, deliverable, files))
  {
    var c := Created(b, deliverable, files);
    forall s | s in c.sessions && HasToken(c, s)
      ensures Shared(c, s)
    {
      assert HasToken(b, s) && Shared(b, s);
      ListAppend(b.captures, CaptureRow(b.nextId, b.sessionId, deliverable), s);
    }
  }

  lemma CreatedUndelivered(b: Booth, deliverable: bool, files: set<FileName>, ids: seq<Id>)
    requires IdsBounded(b) && AllUndelivered(b, ids)
    ensures AllUndelivered(Created(b, deliverable, files), ids + [b.nextId])
    ensures ListBySession(Created(b, deliverable, files).captures, b.sessionId)
         == (if deliverable then [b.nextId] else []) + ListBySession(b.captures, b.sessionId)
  {
    ListAppend(b.captures, CaptureRow(b.nextId, b.sessionId, deliverable), b.sessionId);
    NoUploadYet(b.uploads, b.nextId);
  }

  /** An upload for another capture does not concern a shared session. */
  lemma OtherUploadShares(b: Booth, c: Booth, upload: Upload, s: Id)
    requires Shared(b, s) && c.captures == b.captures && c.files == b.files && c.uploads == b.uploads + [upload]
    requires upload.captureId !in ListBySession(b.captures, s)
    ensures Shared(c, s)
  {
    UploadsAppend(b.uploads, upload, ListBySession(b.captures, s)[0]);
  }

  lemma OwnUploadShares(b: Booth, c: Booth, id: Id, s: Id)
    requires ListBySession(b.captures, s) == [id] && Full(id) in b.files && UploadsOf(b.uploads, id) == []
    requires c.captures == b.captures && c.files == b.files
    requires c.uploads == b.uploads + [Upload(Full(id), RemoteKey(id), id)]
    ensures Shared(c, s)
  {
    UploadsAppend(b.uploads, Upload(Full(id), RemoteKey(id), id), id);
  }

  lemma IssueSharing(b: Booth, id: Id)
    requires BoothOk(b) && Undelivered(b, id) && Full(id) in b.files && Open(b, [id])
    ensures var c := IssueToken(b, id).0;
            BoothOk(c) && c.state == b.state && c.sessionId == b.sessionId
  {
    if b.queued {
      var c := IssueToken(b, id).0;
      var upload := Upload(Full(id), RemoteKey(id), id);
      forall s | s in c.sessions && HasToken(c, s)
        ensures Shared(c, s)
      {
        if s == b.sessionId {
          OwnUploadShares(b, c, id, s);
        } else {
          assert HasToken(b, s) && Shared(b, s);
          var listed := ListBySession(b.captures, s);
          var k := ListedRowExists(b.captures, s, listed[0]);
          assert listed == [listed[0]] && listed[0] != id;
          OtherUploadShares(b, c, upload, s);
        }
      }
    }
  }

  lemma DeliverSharing(b: Booth, f: Frame, id: Id)
    requires BoothOk(b) && Undelivered(b, id) && Full(id) in b.files && Open(b, [id])
    requires f.shotCount == b.shotCount && |f.captureIds| == f.shotIndex == f.shotCount
    requires (b.state == CAPTURING || b.state == IDLE) && FilesWritten(b, f.captureIds)
    ensures var (c, g) := Deliver(b, f, id);
            CaptureOk(c, g)
  {
    var d := b.(deliverables := [id]);
    SameSharing(b, d);
    IssueSharing(d, id);
    var (issued, token) := IssueToken(d, id);
    TransitionSharing(issued, REVIEW, token);
  }

  // ---------------------------------------------------------------- capture()

  /** The head of the loop and what follows it, from any state a capture can be there in. */
  lemma NextShotSharing(b: Booth, f: Frame)
    requires BoothOk(b)
    requires f.shotCount == b.shotCount && |f.captureIds| == f.shotIndex <= f.shotCount
    requires f.shotIndex > 0 ==> b.state == CAPTURING || b.state == IDLE
    requires FilesWritten(b, f.captureIds)
    requires b.state == ARMED || b.state == CAPTURING || f.shotIndex > 0 ==>
               && Open(b, if f.shotCount > 1 then [] else f.captureIds)
               && AllUndelivered(b, f.captureIds)
    ensures var (c, g) := NextShot(b, f);
            CaptureOk(c, g)
  {
    if f.shotIndex < f.shotCount {
      var t := Transition(b, COUNTDOWN, None);
      TransitionSharing(b, COUNTDOWN, None);
    } else if !b.templated || |f.captureIds| == 1 {
      if b.sessionId in b.sessions {
        assert f.captureIds == [f.captureIds[0]];
      }
      DeliverSharing(b, f, f.captureIds[0]);
    }
  }

  lemma TriggerKeepsBooth(b: Booth, f: Frame, hasPreview: bool)
    requires CaptureOk(b, f) && f.point.Triggering?
    ensures BoothOk(TriggerReturned(b, f, Reply(None, hasPreview)).0)
  {
    var d := Created(b, f.shotCount == 1, b.files);
    CreateSharing(b, f.shotCount == 1, b.files);
    SameSharing(d, d.(camera := b.camera + [Triggered(b.nextId)]));
  }

  lemma TriggerKeepsFrame(b: Booth, f: Frame, hasPreview: bool)
    requires CaptureOk(b, f) && f.point.Triggering?
    ensures var (c, g) := TriggerReturned(b, f, Reply(None, hasPreview));
            FrameOk(c, g)
  {
    var (c, g) := TriggerReturned(b, f, Reply(None, hasPreview));
    assert Taken(f) == f.captureIds;
    CreatedUndelivered(b, f.shotCount == 1, b.files, f.captureIds);
    assert AllUndelivered(c, Taken(g));
  }

  lemma TriggerSharing(b: Booth, f: Frame, hasPreview: bool)
    requires CaptureOk(b, f) && f.point.Triggering?
    ensures var (c, g) := TriggerReturned(b, f, Reply(None, hasPreview));
            CaptureOk(c, g)
  {
    TriggerKeepsBooth(b, f, hasPreview);
    TriggerKeepsFrame(b, f, hasPreview);
  }

  lemma FailSharing(b: Booth, f: Frame, message: string)
    requires CaptureOk(b, f) && (f.point.Triggering? || f.point.FetchingPreview? || f.point.FetchingFull?)
    ensures var (c, g) := FailShot(b, f, message);
            CaptureOk(c, g)
  {
    SameSharing(b, FailShot(b, f, message).0);
  }

  lemma PreviewSharing(b: Booth, f: Frame, hasPreview: bool)
    requires CaptureOk(b, f) && f.point.FetchingPreview?
    ensures var (c, g) := PreviewReturned(b, f, Reply(None, hasPreview));
            CaptureOk(c, g)
  {
    var (c, g) := PreviewReturned(b, f, Reply(None, hasPreview));
    SameSharing(b, c);
    FetchedSharing(b, f, c, g);
  }

  lemma FetchedSharing(b: Booth, f: Frame, c: Booth, g: Frame)
    requires FrameOk(b, f) && f.point.FetchingPreview? && (g == At(f, PreviewSent) || g == At(f, FetchingFull))
    requires c == b.(cameraIdle := c.cameraIdle, files := c.files, log := c.log) && b.files <= c.files
    ensures FrameOk(c, g)
  {
    assert Taken(g) == Taken(f) && Produced(g) == Produced(f);
  }

  lemma FullSharing(b: Booth, f: Frame, hasPreview: bool)
    requires CaptureOk(b, f) && f.point.FetchingFull?
    ensures var (c, g) := FullReturned(b, f, Reply(None, hasPreview));
            CaptureOk(c, g)
  {
    var (c, g) := FullReturned(b, f, Reply(None, hasPreview));
    SameSharing(b, c);
    assert Taken(g) == Taken(f);
  }

  lemma RenderKeepsBooth(b: Booth, f: Frame, hasPreview: bool)
    requires CaptureOk(b, f) && f.point.Rendering?
    ensures BoothOk(RenderReturned(b, f, Reply(None, hasPreview)).0)
  {
    var files := b.files + {Full(b.nextId)};
    CreateSharing(b, true, files);
    var d := Created(b, true, files);
    SameSharing(d, Broadcast(d, FullImageReady(b.sessionId, b.nextId)));
  }

  lemma RenderKeepsFrame(b: Booth, f: Frame, hasPreview: bool)
    requires CaptureOk(b, f) && f.point.Rendering?
    ensures var (c, g) := RenderReturned(b, f, Reply(None, hasPreview));
            FrameOk(c, g)
  {
    var (c, g) := RenderReturned(b, f, Reply(None, hasPreview));
    assert Taken(f) == f.captureIds;
    CreatedUndelivered(b, true, b.files + {Full(b.nextId)}, f.captureIds);
    assert AllUndelivered(c, Taken(g));
  }

  lemma RenderSharing(b: Booth, f: Frame, hasPreview: bool)
    requires CaptureOk(b, f) && f.point.Rendering?
    ensures var (c, g) := RenderReturned(b, f, Reply(None, hasPreview));
            CaptureOk(c, g)
  {
    RenderKeepsBooth(b, f, hasPreview);
    RenderKeepsFrame(b, f, hasPreview);
  }

  lemma QuietSharing(b: Booth, f: Frame, r: Reply)
    requires CaptureOk(b, f) && !AtFallibleCall(f) && !Transits(f)
    ensures var (c, g) := Resume(b, f, r);
            CaptureOk(c, g)
  {
    if f.point.CountdownStateSent? {
      SameSharing(b, Resume(b, f, r).0);
    } else if f.point.PreviewSent? {
      SameSharing(b, b.(cameraIdle := false));
      assert Resume(b, f, r) == (b.(cameraIdle := false), At(f, FetchingFull));
    } else {
      QuietEndSharing(b, f, r);
    }
  }

  lemma QuietEndSharing(b: Booth, f: Frame, r: Reply)
    requires CaptureOk(b, f) && !AtFallibleCall(f) && !Transits(f)
    requires !f.point.CountdownStateSent? && !f.point.PreviewSent?
    ensures Resume(b, f, r).0 == b && CaptureOk(b, Resume(b, f, r).1)
  {
  }

  lemma EnterSharing(b: Booth, f: Frame)
    requires CaptureOk(b, f) && (f.point.Sleeping? || f.point.WaitingForCamera?)
    ensures var (c, g) := EnterCapturing(b, f);
            CaptureOk(c, g)
  {
    TransitionSharing(b, CAPTURING, None);
    if b.state == COUNTDOWN {
      EnteredSharing(b, f, Transition(b, CAPTURING, None).value);
    }
  }

  lemma EnteredSharing(b: Booth, f: Frame, c: Booth)
    requires CaptureOk(b, f) && (f.point.Sleeping? || f.point.WaitingForCamera?)
    requires Transition(b, CAPTURING, None) == Some(c)
    ensures FrameOk(c, At(f, CapturingStateSent))
  {
    assert Taken(At(f, CapturingStateSent)) == Taken(f) && Produced(At(f, CapturingStateSent)) == Produced(f);
  }

  lemma CallSharing(b: Booth, f: Frame, r: Reply)
    requires CaptureOk(b, f) && AtFallibleCall(f)
    ensures var (c, g) := Resume(b, f, r);
            CaptureOk(c, g)
  {
    if r.fault.Some? {
      if f.point.Rendering? {
        assert Resume(b, f, r) == (b, At(f, Raised(RenderFault)));
      } else {
        FailSharing(b, f, r.fault.value);
        assert Resume(b, f, r) == FailShot(b, f, r.fault.value);
      }
    } else {
      assert r == Reply(None, r.hasPreview);
      if f.point.Triggering? {
        TriggerSharing(b, f, r.hasPreview);
      } else if f.point.FetchingPreview? {
        PreviewSharing(b, f, r.hasPreview);
      } else if f.point.FetchingFull? {
        FullSharing(b, f, r.hasPreview);
      } else {
        RenderSharing(b, f, r.hasPreview);
      }
    }
  }

  lemma FailureSharing(b: Booth, f: Frame)
    requires CaptureOk(b, f) && f.point.FailureSent?
    ensures var (c, g) := FailureBroadcast(b, f, f.point.message);
            CaptureOk(c, g)
  {
    TransitionSharing(b, IDLE, None);
  }

  lemma FullSentSharing(b: Booth, f: Frame)
    requires CaptureOk(b, f) && f.point.FullSent?
    ensures var (c, g) := NextShot(b, f.(shotIndex := f.shotIndex + 1));
            CaptureOk(c, g)
  {
    assert Taken(f) == f.captureIds;
    NextShotSharing(b, f.(shotIndex := f.shotIndex + 1));
  }

  lemma CompositeSharing(b: Booth, f: Frame)
    requires CaptureOk(b, f) && f.point.CompositeSent?
    ensures var (c, g) := Deliver(b, f, f.current);
            CaptureOk(c, g)
  {
    assert Taken(f)[|f.captureIds|] == f.current;
    DeliverSharing(b, f, f.current);
  }

  lemma TransitSharing(b: Booth, f: Frame, r: Reply)
    requires CaptureOk(b, f) && Transits(f) && (f.point.Sleeping? ==> b.cameraIdle)
    ensures var (c, g) := Resume(b, f, r);
            CaptureOk(c, g)
  {
    if f.point.FullSent? {
      FullSentSharing(b, f);
    } else if f.point.FailureSent? {
      FailureSharing(b, f);
    } else if f.point.CompositeSent? {
      CompositeSharing(b, f);
    } else {
      EnterSharing(b, f);
    }
  }

  lemma ResumeSharing(b: Booth, f: Frame, r: Reply)
    requires CaptureOk(b, f)
    ensures var (c, g) := Resume(b, f, r);
            CaptureOk(c, g)
  {
    if AtFallibleCall(f) {
      CallSharing(b, f, r);
    } else if f.point.Sleeping? && !b.cameraIdle {
      assert Resume(b, f, r) == (b, At(f, WaitingForCamera));
    } else if Transits(f) {
      TransitSharing(b, f, r);
    } else {
      QuietSharing(b, f, r);
    }
  }

  // ---------------------------------------------------------------- whole runs

  lemma ArmSharing(b: Booth, slots: Option<SlotCount>)
    requires BoothOk(b) && AtRest(b)
    ensures BoothOk(Arm(b, slots)) && AtRest(Arm(b, slots))
    ensures BoothOk(ArmRaising(b)) && AtRest(ArmRaising(b))
  {
    if b.state == IDLE {
      var c := Arm(b, slots);
      NoCaptureYet(b.captures, b.nextId);
      forall s | s in c.sessions && HasToken(c, s)
        ensures Shared(c, s)
      {
        assert HasToken(b, s);
      }
    }
  }

  lemma DismissSharing(b: Booth, f: Frame)
    requires CaptureOk(b, f)
    ensures CaptureOk(Dismiss(b), f)
  {
    TransitionSharing(b, IDLE, None);
  }

  lemma StepSharing(w: World, a: Action)
    requires SharingInv(w) && Exclusive(w, a)
    ensures SharingInv(Step(w, a))
  {
    var n := |w.captures|;
    match a
    case ArmOk(slots) => ArmSharing(w.booth, slots);
    case ArmRaises => ArmSharing(w.booth, None);
    case DismissNow =>
      TransitionSharing(w.booth, IDLE, None);
      if n > 0 {
        DismissSharing(w.booth, w.captures[n - 1]);
      }
    case StartCapture =>
      NextShotSharing(w.booth, Frame(CountdownStateSent, 0, w.booth.shotCount, [], 0));
    case Wake(k, reply) =>
      if k < n - 1 {
        assert Finished(w.captures[k]) && Step(w, a).captures == w.captures;
      } else if k == n - 1 {
        ResumeSharing(w.booth, w.captures[k], reply);
      }
  }

  lemma {:induction false} RunSharing(w: World, actions: seq<Action>)
    requires SharingInv(w) && ExclusiveRun(w, actions)
    ensures SharingInv(Run(w, actions))
    decreases |actions|
  {
    if |actions| > 0 {
      StepSharing(w, actions[0]);
      RunSharing(Step(w, actions[0]), actions[1..]);
    }
  }

  // ---------------------------------------------------------------- the QR code

  datatype NotFound = NotFound

  function RStrip(s: string, c: char): string {
    if |s| > 0 && s[|s| - 1] == c then RStrip(s[..|s| - 1], c) else s
  }

  function ShareUrl(base: string, host: string, token: string): string {
    RStrip(if base == "" then host else base, '/') + "/s/" + token
  }

  function QrTarget(base: string, host: string, token: string, captures: seq<CaptureRow>, session: Id)
    : Result<string, NotFound>
  {
    if base == "" then Ok(ShareUrl(base, host, token))
    else
      var listed := ListBySession(captures, session);
      if |listed| == 0 then Err(NotFound) else Ok(RStrip(base, '/') + "/" + Hex(listed[0]) + ".jpg")
  }

  /** A session that got a share token has one deliverable row, its file is on disk, one upload job was
      queued for it, and with a public base URL the QR code leads to that job's remote key, never to a 404. */
  lemma {:induction false} SharedSessionIsDelivered(queued: bool, actions: seq<Action>, s: Id,
                                                    base: string, host: string, token: string)
    requires ExclusiveRun(Opening(queued), actions)
    requires HasToken(Run(Opening(queued), actions).booth, s)
    ensures var b := Run(Opening(queued), actions).booth;
            var listed := ListBySession(b.captures, s);
            && |listed| == 1
            && Full(listed[0]) in b.files
            && |UploadsOf(b.uploads, listed[0])| == 1
            && var upload := UploadsOf(b.uploads, listed[0])[0];
               && upload.localPath == Full(listed[0]) && upload.remoteKey == RemoteKey(listed[0])
               && (base != "" ==>
                     QrTarget(base, host, token, b.captures, s) == Ok(RStrip(base, '/') + "/" + upload.remoteKey))
  {
    assert SharingInv(Opening(queued));
    RunSharing(Opening(queued), actions);
    var b := Run(Opening(queued), actions).booth;
    assert Shared(b, s);
    var id := ListBySession(b.captures, s)[0];
    assert RStrip(base, '/') + "/" + Hex(id) + ".jpg" == RStrip(base, '/') + "/" + RemoteKey(id);
  }
}
