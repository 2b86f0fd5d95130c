/**
 `SessionManager` and `SessionStateMachine` in the program's own form: fields that the methods update and
 a `capture` that loops over the shots.  An await gives the surroundings a turn; an exception is a
 returned `Exit`.  `View` is the value the protocol modules reason about, and `Capture` is tied to
 `Drive`, so their theorems are about this method.
 */
module SessionManagers {
  import opened Results
  import opened SessionProtocol
  import opened SessionSafety
  import opened SessionTrace

  class SessionStateMachine {
    var state: SessionState

    constructor ()
      ensures state == IDLE
    {
      state := IDLE;
    }

    method Transition(target: SessionState) returns (allowed: bool)
      modifies this
      ensures allowed <==> target in AllowedTransitions(old(state))
      ensures allowed <==>
                match target
                case IDLE => old(state) != IDLE
                case ARMED => old(state) == IDLE
                case COUNTDOWN => old(state) in {ARMED, CAPTURING}
                case CAPTURING => old(state) == COUNTDOWN
                case REVIEW => old(state) == CAPTURING
                case PROCESSING => old(state) == REVIEW
      ensures state == if allowed then target else old(state)
    {
      EdgesByTarget(state, target);
      allowed := target in AllowedTransitions(state);
      if allowed {
        state := target;
      }
    }
  }

  class SessionManager {
    const machine: SessionStateMachine
    const queued: bool
    var sessionId: Id
    var shotCount: SlotCount
    var templated: bool
    var sessionCaptureIds: seq<Id>
    var cameraIdle: bool
    var sessions: map<Id, SessionRow>
    var captures: seq<CaptureRow>
    var files: set<FileName>
    var uploads: seq<Upload>
    var log: seq<Event>
    var camera: seq<CameraCommand>
    var nextId: Id
    var others: seq<Frame>

    function View(): Booth
      reads this, machine
    {
      Booth(machine.state, sessionId, shotCount, templated, sessionCaptureIds, cameraIdle, queued,
            sessions, captures, files, uploads, log, camera, nextId, others)
    }

    constructor (queued: bool)
      ensures View() == NewBooth(queued) && fresh(machine)
    {
      machine := new SessionStateMachine();
      this.queued := queued;
      sessionId, nextId := 0, 1;
      shotCount, templated, sessionCaptureIds, cameraIdle := 1, false, [], true;
      sessions, captures, files, uploads, log, camera, others := map[], [], {}, [], [], [], [];
    }

    method Fresh() returns (id: Id)
      modifies this`nextId
      ensures id == old(nextId) && nextId == id + 1
    {
      id := nextId;
      nextId := nextId + 1;
    }

    method Send(event: Event)
      modifies this`log
      ensures log == old(log) + [event]
    {
      log := log + [event];
    }

    /** The part of `_transition` before its broadcast suspends. */
    method TransitionTo(target: SessionState, token: Option<Id>) returns (allowed: bool)
      modifies this, machine
      ensures allowed <==> target in AllowedTransitions(old(machine.state))
      ensures machine.state == if allowed then target else old(machine.state)
      ensures allowed ==>
                && log == old(log) + [StateChanged(sessionId, target, token)] && sessions.Keys == old(sessions.Keys)
                && (sessionId in sessions ==> sessions[sessionId] == old(sessions)[sessionId].(state := target))
      ensures allowed <==> Transition(old(View()), target, token).Some?
      ensures View() == if allowed then Transition(old(View()), target, token).value else old(View())
    {
      allowed := machine.Transition(target);
      if allowed {
        if sessionId in sessions {
          sessions := sessions[sessionId := sessions[sessionId].(state := target)];
        }
        Send(StateChanged(sessionId, target, token));
      }
    }

    /** A fresh session id, and no captures or template left over from the session before. */
    method OpenSession()
      modifies this`sessionId, this`nextId, this`sessionCaptureIds, this`templated
      ensures sessionId == old(nextId) && nextId == old(nextId) + 1 && sessionCaptureIds == [] && !templated
    {
      sessionId := Fresh();
      sessionCaptureIds, templated := [], false;
    }

    /** `slots` is what the configuration says; `raises` tells that loading it raised, after the session was
        opened and before anything else. */
    method ArmSession(slots: Option<SlotCount>, raises: bool) returns (allowed: bool)
      modifies this, machine
      ensures allowed <==> old(machine.state) == IDLE
      ensures allowed ==> machine.state == ARMED && sessionId == old(nextId) && sessionCaptureIds == []
      ensures allowed && !raises ==>
                && shotCount == (if slots.Some? then slots.value else 1) && templated == slots.Some?
                && sessions == old(sessions)[sessionId := SessionRow(ARMED, None)]
                && log == old(log) + [StateChanged(sessionId, ARMED, None)]
      ensures allowed && raises ==>
                shotCount == old(shotCount) && !templated && sessions == old(sessions) && log == old(log)
      ensures !allowed ==> View() == old(View())
      ensures View() == if raises then ArmRaising(old(View())) else Arm(old(View()), slots)
    {
      allowed := machine.Transition(ARMED);
      if !allowed {
        return;
      }
      OpenSession();
      if !raises {
        RecordSession(slots);
      }
    }

    method RecordSession(slots: Option<SlotCount>)
      modifies this`shotCount, this`templated, this`sessions, this`log
      ensures View() == old(View()).(shotCount := if slots.Some? then slots.value else 1, templated := slots.Some?,
                                     sessions := old(sessions)[sessionId := SessionRow(ARMED, None)],
                                     log := old(log) + [StateChanged(sessionId, ARMED, None)])
    {
      shotCount, templated := if slots.Some? then slots.value else 1, slots.Some?;
      sessions := sessions[sessionId := SessionRow(ARMED, None)];
      Send(StateChanged(sessionId, ARMED, None));
    }

    method DismissSession() returns (allowed: bool)
      modifies this, machine
      ensures allowed <==> old(machine.state) != IDLE
      ensures machine.state == IDLE
      ensures !allowed ==> View() == old(View())
      ensures allowed ==> log == old(log) + [StateChanged(sessionId, IDLE, None)] && sessions.Keys == old(sessions.Keys)
      ensures View() == Dismiss(old(View()))
    {
      EdgesByTarget(machine.state, IDLE);
      allowed := TransitionTo(IDLE, None);
    }

    /** What a step of another capture() leaves behind. */
    method Become(b: Booth)
      requires b.queued == queued
      modifies this, machine
      ensures View() == b
    {
      machine.state := b.state;
      sessionId, shotCount, templated, sessionCaptureIds, cameraIdle :=
        b.sessionId, b.shotCount, b.templated, b.deliverables, b.cameraIdle;
      sessions, captures, files, uploads, log, camera, nextId, others :=
        b.sessions, b.captures, b.files, b.uploads, b.log, b.camera, b.nextId, b.others;
    }

    /** A step of another coroutine. */
    method Intrude(call: Intrusion)
      modifies this, machine
      ensures View() == Intruded(old(View()), call)
    {
      match call {
        case DismissCall => var _ := DismissSession();
        case ArmCall(slots) => var _ := ArmSession(slots, false);
        case ArmCallRaises => var _ := ArmSession(None, true);
        case CaptureCall =>
          NextShotApart(View(), FirstFrame(View()));
          Become(Intruded(View(), call));
        case WakeOther(k, reply) =>
          if k < |others| {
            ResumeApart(View(), others[k], reply);
          }
          Become(Intruded(View(), call));
      }
    }

    /** capture() is suspended at `point` of shot `i`: others may dismiss, arm or capture before it goes on. */
    method Await(env: Surroundings, i: nat, point: Point, ghost f: Frame) returns (reply: Reply)
      requires f.shotIndex == i && f.point == point && !Finished(f)
      modifies this, machine
      ensures View() == IntrudedAll(old(View()), env(i, point).intrusions)
      ensures reply == env(i, point).reply
      ensures Drive(old(View()), f, env) == DriveFrom(Resume(View(), f, reply), env)
    {
      var calls := env(i, point).intrusions;
      while |calls| > 0
        invariant IntrudedAll(View(), calls) == IntrudedAll(old(View()), env(i, point).intrusions)
        decreases |calls|
      {
        Intrude(calls[0]);
        calls := calls[1..];
      }
      reply := env(i, point).reply;
    }

    method IssueShareTokenAndEnqueueUploads(id: Id) returns (token: Option<Id>)
      modifies this
      ensures (View(), token) == IssueToken(old(View()), id)
      ensures queued ==> token == Some(old(nextId)) && uploads == old(uploads) + [Upload(Full(id), RemoteKey(id), id)]
      ensures queued && sessionId in sessions ==> sessions[sessionId].shareToken == token
      ensures !queued ==> token.None? && View() == old(View())
    {
      if !queued {
        return None;
      }
      var secret := Fresh();
      token := Some(secret);
      if sessionId in sessions {
        sessions := sessions[sessionId := sessions[sessionId].(shareToken := token)];
      }
      uploads := uploads + [Upload(Full(id), RemoteKey(id), id)];
    }

    /** The end of `capture` once the deliverable is known. */
    method Review(id: Id, env: Surroundings, i: nat, ghost f: Frame) returns (exit: Option<Exit>)
      requires f.shotIndex == i
      modifies this, machine
      ensures Ends(DriveFrom(Deliver(old(View()), f, id), env), View(), exit)
    {
      var allowed := EnterReview(id, f);
      if !allowed {
        return Some(InvalidTransition);
      }
      var reply := Await(env, i, ReviewStateSent, At(f, ReviewStateSent));
      assert Resume(View(), At(f, ReviewStateSent), reply) == (View(), At(f, Returned));
      return None;
    }

    method EnterReview(id: Id, ghost f: Frame) returns (allowed: bool)
      modifies this, machine
      ensures Deliver(old(View()), f, id)
           == (View(), At(f, if allowed then ReviewStateSent else Raised(InvalidTransition)))
    {
      sessionCaptureIds := [id];
      var token := IssueShareTokenAndEnqueueUploads(id);
      allowed := TransitionTo(REVIEW, token);
    }

    /** The `except CameraError` clause of `capture`. */
    method Fail(message: string, env: Surroundings, i: nat, ghost f: Frame) returns (exit: Option<Exit>)
      requires f.shotIndex == i
      modifies this, machine
      ensures Ends(DriveFrom(FailShot(old(View()), f, message), env), View(), exit)
    {
      cameraIdle := true;
      Send(CaptureFailed(sessionId, message));
      assert FailShot(old(View()), f, message) == (View(), At(f, FailureSent(message)));
      var reply := Await(env, i, FailureSent(message), At(f, FailureSent(message)));
      assert Resume(View(), At(f, FailureSent(message)), reply) == FailureBroadcast(View(), f, message);
      exit := ReturnToIdle(message, env, i, f);
    }

    method ReturnToIdle(message: string, env: Surroundings, i: nat, ghost f: Frame) returns (exit: Option<Exit>)
      requires f.shotIndex == i
      modifies this, machine
      ensures Ends(DriveFrom(FailureBroadcast(old(View()), f, message), env), View(), exit)
    {
      var allowed := TransitionTo(IDLE, None);
      if !allowed {
        return Some(InvalidTransition);
      }
      var reply := Await(env, i, IdleStateSent(message), At(f, IdleStateSent(message)));
      assert Resume(View(), At(f, IdleStateSent(message)), reply) == (View(), At(f, Raised(CameraFault(message))));
      return Some(CameraFault(message));
    }

    /** `_finalize_capture` and what `capture` does with its result. */
    method FinalizeCapture(captureIds: seq<Id>, env: Surroundings, i: nat, ghost f: Frame) returns (exit: Option<Exit>)
      requires f.shotIndex == i && f.captureIds == captureIds
      modifies this, machine
      ensures Ends(DriveFrom(Finalize(old(View()), f), env), View(), exit)
    {
      if !templated || |captureIds| == 1 {
        if |captureIds| == 0 {
          return Some(NoCapture);
        }
        exit := Review(captureIds[0], env, i, f);
        return;
      }
      exit := RenderComposite(env, i, f);
    }

    method RenderComposite(env: Surroundings, i: nat, ghost f: Frame) returns (exit: Option<Exit>)
      requires f.shotIndex == i
      modifies this, machine
      ensures Ends(Drive(old(View()), At(f, Rendering), env), View(), exit)
    {
      var reply := Await(env, i, Rendering, At(f, Rendering));
      ghost var v := View();
      if reply.fault.Some? {
        assert Resume(v, At(f, Rendering), reply) == (v, At(f, Raised(RenderFault)));
        return Some(RenderFault);
      }
      var id := SaveComposite();
      ghost var g := f.(point := CompositeSent, current := id);
      assert Resume(v, At(f, Rendering), reply) == (View(), g);
      exit := ReviewComposite(id, env, i, g);
    }

    method ReviewComposite(id: Id, env: Surroundings, i: nat, ghost f: Frame) returns (exit: Option<Exit>)
      requires f.point.CompositeSent? && f.current == id && f.shotIndex == i
      modifies this, machine
      ensures Ends(Drive(old(View()), f, env), View(), exit)
    {
      var reply := Await(env, i, CompositeSent, f);
      assert Resume(View(), f, reply) == Deliver(View(), f, id);
      exit := Review(id, env, i, f);
    }

    method SaveComposite() returns (id: Id)
      modifies this
      ensures View() == Broadcast(old(View()).(nextId := id + 1, files := old(files) + {Full(id)},
                                               captures := old(captures) + [CaptureRow(id, sessionId, true)]),
                                  FullImageReady(sessionId, id))
      ensures id == old(nextId) && sessionId == old(sessionId)
    {
      id := Fresh();
      files := files + {Full(id)};
      captures := captures + [CaptureRow(id, sessionId, true)];
      Send(FullImageReady(sessionId, id));
    }

    /** From the head of the loop to the camera gate. */
    method CountDown(i: nat, n: SlotCount, env: Surroundings, ghost f: Frame) returns (allowed: bool)
      requires f.shotIndex == i < n && f.shotCount == n
      modifies this, machine
      ensures !allowed ==> Ends(DriveFrom(NextShot(old(View()), f), env), View(), Some(InvalidTransition))
      ensures allowed ==> DriveFrom(NextShot(old(View()), f), env) == DriveFrom(EnterCapturing(View(), f), env)
    {
      allowed := TransitionTo(COUNTDOWN, None);
      if !allowed {
        return;
      }
      var reply := Await(env, i, CountdownStateSent, At(f, CountdownStateSent));
      ghost var v := View();
      Send(CountdownStarted(sessionId, i, n));
      assert Resume(v, At(f, CountdownStateSent), reply) == (View(), At(f, CountdownSent));
      reply := Await(env, i, CountdownSent, At(f, CountdownSent));
      assert Resume(View(), At(f, CountdownSent), reply) == (View(), At(f, Sleeping));
      AwaitCamera(env, i, f);
    }

    /** The countdown's sleep and the wait for `_camera_idle`. */
    method AwaitCamera(env: Surroundings, i: nat, ghost f: Frame)
      requires f.shotIndex == i
      modifies this, machine
      ensures Drive(old(View()), At(f, Sleeping), env) == DriveFrom(EnterCapturing(View(), f), env)
    {
      var reply := Await(env, i, Sleeping, At(f, Sleeping));
      if !cameraIdle {
        assert Resume(View(), At(f, Sleeping), reply) == (View(), At(f, WaitingForCamera));
        reply := Await(env, i, WaitingForCamera, At(f, WaitingForCamera));
        assert EnterCapturing(View(), At(f, WaitingForCamera)) == EnterCapturing(View(), f);
      } else {
        assert EnterCapturing(View(), At(f, Sleeping)) == EnterCapturing(View(), f);
      }
    }

    method StartCapturing(i: nat, env: Surroundings, ghost f: Frame) returns (allowed: bool)
      requires f.shotIndex == i
      modifies this, machine
      ensures !allowed ==> Ends(DriveFrom(EnterCapturing(old(View()), f), env), View(), Some(InvalidTransition))
      ensures allowed ==> DriveFrom(EnterCapturing(old(View()), f), env) == Drive(View(), At(f, Triggering), env)
    {
      allowed := TransitionTo(CAPTURING, None);
      if !allowed {
        return;
      }
      var reply := Await(env, i, CapturingStateSent, At(f, CapturingStateSent));
      assert Resume(View(), At(f, CapturingStateSent), reply) == (View(), At(f, Triggering));
    }

    /** `trigger_capture` and the row of the raw shot. */
    method Trigger(i: nat, n: SlotCount, env: Surroundings, ghost f: Frame)
      returns (shot: Result<Id, Option<Exit>>)
      requires f.shotIndex == i && f.shotCount == n && f.point.Triggering?
      modifies this, machine
      ensures shot.Err? ==> Ends(Drive(old(View()), f, env), View(), shot.error)
      ensures shot.Ok? ==>
                (Drive(old(View()), f, env) == Drive(View(), f.(point := FetchingPreview, current := shot.value), env))
    {
      var reply := Await(env, i, Triggering, f);
      ghost var v := View();
      if reply.fault.Some? {
        assert Resume(v, f, reply) == FailShot(v, f, reply.fault.value);
        var exit := Fail(reply.fault.value, env, i, f);
        return Err(exit);
      }
      var id := SaveShot(n);
      assert Resume(v, f, reply) == (View(), f.(point := FetchingPreview, current := id));
      shot := Ok(id);
    }

    method SaveShot(n: SlotCount) returns (id: Id)
      modifies this
      ensures View() == old(View()).(nextId := id + 1, captures := old(captures) + [CaptureRow(id, sessionId, n == 1)],
                                     camera := old(camera) + [Triggered(id)])
      ensures id == old(nextId) && sessionId == old(sessionId)
    {
      id := Fresh();
      camera := camera + [Triggered(id)];
      captures := captures + [CaptureRow(id, sessionId, n == 1)];
    }

    /** `download_preview`, up to the clearing of `_camera_idle`. */
    method FetchPreview(id: Id, i: nat, n: SlotCount, env: Surroundings, ghost f: Frame) returns (fault: Option<string>)
      requires f.point.FetchingPreview? && f.current == id && f.shotIndex == i && f.shotCount == n
      modifies this, machine
      ensures fault.Some? ==> Drive(old(View()), f, env) == DriveFrom(FailShot(View(), f, fault.value), env)
      ensures fault.None? ==> Drive(old(View()), f, env) == Drive(View(), At(f, FetchingFull), env)
    {
      var reply := Await(env, i, FetchingPreview, f);
      ghost var v := View();
      if reply.fault.Some? {
        assert Resume(v, f, reply) == FailShot(v, f, reply.fault.value);
        return reply.fault;
      }
      if reply.hasPreview {
        files := files + {Preview(id)};
        Send(PreviewReady(sessionId, id, i, n));
        assert Resume(v, f, reply) == (View(), At(f, PreviewSent));
        reply := Await(env, i, PreviewSent, At(f, PreviewSent));
        v := View();
        cameraIdle := false;
        assert Resume(v, At(f, PreviewSent), reply) == (View(), At(f, FetchingFull));
      } else {
        cameraIdle := false;
        assert Resume(v, f, reply) == (View(), At(f, FetchingFull));
      }
      return None;
    }

    method SaveFull(id: Id)
      modifies this
      ensures View() == Broadcast(old(View()).(files := old(files) + {Full(id)},
                                               camera := old(camera) + [Downloaded(id)]),
                                  FullImageReady(sessionId, id))
      ensures sessionId == old(sessionId)
    {
      files := files + {Full(id)};
      camera := camera + [Downloaded(id)];
      Send(FullImageReady(sessionId, id));
    }

    /** `download_full` with its `finally`, up to the end of the pass. */
    method FetchFull(id: Id, i: nat, env: Surroundings, ghost f: Frame) returns (fault: Option<string>)
      requires f.point.FetchingFull? && f.current == id && f.shotIndex == i
      modifies this, machine
      ensures fault.Some? ==> Drive(old(View()), f, env) == DriveFrom(FailShot(View(), f, fault.value), env)
      ensures fault.None? ==>
                (Drive(old(View()), f, env)
                 == DriveFrom(NextShot(View(), Frame(FullSent, i + 1, f.shotCount, f.captureIds + [id], id)), env))
    {
      var reply := Await(env, i, FetchingFull, f);
      ghost var v := View();
      cameraIdle := true;
      if reply.fault.Some? {
        assert Resume(v, f, reply) == FailShot(View(), f, reply.fault.value);
        return reply.fault;
      }
      SaveFull(id);
      ghost var g := Frame(FullSent, i, f.shotCount, f.captureIds + [id], id);
      assert Resume(v, f, reply) == (View(), g);
      EndPass(env, i, g);
      return None;
    }

    method EndPass(env: Surroundings, i: nat, ghost f: Frame)
      requires f.point.FullSent? && f.shotIndex == i
      modifies this, machine
      ensures Drive(old(View()), f, env) == DriveFrom(NextShot(View(), f.(shotIndex := i + 1)), env)
    {
      var reply := Await(env, i, FullSent, f);
      assert Resume(View(), f, reply) == NextShot(View(), f.(shotIndex := i + 1));
    }

    /** The body of the shot loop. */
    method TakeShot(i: nat, n: SlotCount, env: Surroundings, ghost f: Frame) returns (shot: Result<Id, Option<Exit>>)
      requires f.shotIndex == i < n && f.shotCount == n
      modifies this, machine
      ensures shot.Err? ==> Ends(DriveFrom(NextShot(old(View()), f), env), View(), shot.error)
      ensures shot.Ok? ==>
                (DriveFrom(NextShot(old(View()), f), env)
                 == DriveFrom(NextShot(View(), Frame(FullSent, i + 1, n, f.captureIds + [shot.value], shot.value)),
                              env))
    {
      var allowed := CountDown(i, n, env, f);
      if !allowed {
        return Err(Some(InvalidTransition));
      }
      allowed := StartCapturing(i, env, f);
      if !allowed {
        return Err(Some(InvalidTransition));
      }
      shot := Trigger(i, n, env, At(f, Triggering));
      if shot.Err? {
        return;
      }
      ghost var g := f.(point := FetchingPreview, current := shot.value);
      var fault := FetchPreview(shot.value, i, n, env, g);
      if fault.None? {
        g := At(g, FetchingFull);
        fault := FetchFull(shot.value, i, env, g);
      }
      if fault.Some? {
        var exit := Fail(fault.value, env, i, g);
        return Err(exit);
      }
    }

    method Capture(env: Surroundings) returns (exit: Option<Exit>)
      modifies this, machine
      ensures Ends(DriveFrom(Begin(old(View())), env), View(), exit)
    {
      var n := shotCount;
      var captureIds: seq<Id> := [];
      ghost var f := Frame(CountdownStateSent, 0, n, [], 0);
      for i := 0 to n
        invariant f.shotIndex == i && f.shotCount == n && f.captureIds == captureIds
        invariant DriveFrom(NextShot(View(), f), env) == DriveFrom(Begin(old(View())), env)
      {
        var shot := TakeShot(i, n, env, f);
        if shot.Err? {
          return shot.error;
        }
        captureIds := captureIds + [shot.value];
        f := Frame(FullSent, i + 1, n, captureIds, shot.value);
      }
      exit := FinalizeCapture(captureIds, env, n, f);
    }
  }

  /** A driven capture ended in booth `b`, returning normally or raising. */
  ghost predicate Ends(end: (Booth, Frame), b: Booth, exit: Option<Exit>) {
    end.0 == b && end.1.point == (if exit.None? then Returned else Raised(exit.value))
  }
}
