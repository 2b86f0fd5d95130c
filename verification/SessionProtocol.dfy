/**
 The capture protocol of web/session.py over core/state.py, cut at its awaits.

 `Booth` is everything the coroutines share: the fields of SessionManager, the sessions and captures
 tables, the captures directory, the upload jobs it enqueued, the events it broadcast, and (kept by the
 model only) the camera commands that succeeded.  A running `capture()` is a `Frame`: the await it is
 suspended at and its local variables.  `Resume` runs it to its next await.  Where one capture() is followed on
 its own, `others` are those under way besides it.
 Fresh uuids and share tokens come from one counter.
 */
module SessionProtocol {
  import opened Results

  type Id = nat

  /** A template has at least one slot. */
  type SlotCount = n: nat | n >= 1 witness 1

  datatype SessionState = IDLE | ARMED | COUNTDOWN | CAPTURING | REVIEW | PROCESSING

  function AllowedTransitions(state: SessionState): set<SessionState> {
    match state
    case IDLE => {ARMED}
    case ARMED => {COUNTDOWN, IDLE}
    case COUNTDOWN => {CAPTURING, IDLE}
    case CAPTURING => {REVIEW, IDLE, COUNTDOWN}
    case REVIEW => {PROCESSING, IDLE}
    case PROCESSING => {IDLE}
  }

  datatype SessionRow = SessionRow(state: SessionState, shareToken: Option<Id>)

  datatype CaptureRow = CaptureRow(id: Id, session: Id, deliverable: bool)

  datatype FileName = Full(id: Id) | Preview(id: Id)

  datatype Upload = Upload(localPath: FileName, remoteKey: string, captureId: Id)

  datatype Event =
    | StateChanged(session: Id, state: SessionState, shareToken: Option<Id>)
    | CountdownStarted(session: Id, shotIndex: nat, shotCount: nat)
    | PreviewReady(session: Id, captureId: Id, shotIndex: nat, shotCount: nat)
    | FullImageReady(session: Id, captureId: Id)
    | CaptureFailed(session: Id, message: string)

  datatype CameraCommand = Triggered(id: Id) | Downloaded(id: Id)

  datatype Booth = Booth(
    state: SessionState,
    sessionId: Id,
    shotCount: SlotCount,
    templated: bool,
    deliverables: seq<Id>,
    cameraIdle: bool,
    queued: bool,
    sessions: map<Id, SessionRow>,
    captures: seq<CaptureRow>,
    files: set<FileName>,
    uploads: seq<Upload>,
    log: seq<Event>,
    camera: seq<CameraCommand>,
    nextId: Id,
    others: seq<Frame>)

  /** A SessionManager over an empty database; `queued` tells whether it was given a job queue. */
  function NewBooth(queued: bool): Booth {
    Booth(IDLE, 0, 1, false, [], true, queued, map[], [], {}, [], [], [], 1, [])
  }

  // ---------------------------------------------------------------- the pieces between two awaits

  function UpdateState(sessions: map<Id, SessionRow>, id: Id, state: SessionState): map<Id, SessionRow> {
    if id in sessions then sessions[id := sessions[id].(state := state)] else sessions
  }

  /** `_transition` up to its broadcast; None when the machine refuses. */
  function Transition(b: Booth, target: SessionState, token: Option<Id>): Option<Booth> {
    if target !in AllowedTransitions(b.state) then None
    else Some(b.(state := target,
                 sessions := UpdateState(b.sessions, b.sessionId, target),
                 log := b.log + [StateChanged(b.sessionId, target, token)]))
  }

  function Broadcast(b: Booth, event: Event): Booth {
    b.(log := b.log + [event])
  }

  /** `arm()`: `slots` is the slot count of the template the event selects, None when no event or
      template directory is configured. */
  function Arm(b: Booth, slots: Option<SlotCount>): Booth {
    if ARMED !in AllowedTransitions(b.state) then b
    else
      var sid := b.nextId;
      Broadcast(b.(state := ARMED, sessionId := sid, nextId := sid + 1, deliverables := [],
                   shotCount := if slots.Some? then slots.value else 1,
                   templated := slots.Some?,
                   sessions := b.sessions[sid := SessionRow(ARMED, None)]),
                StateChanged(sid, ARMED, None))
  }

  /** `arm()` when loading the event or the template raises: the machine and the session id have moved
      on, the shot count has not, and no row is written. */
  function ArmRaising(b: Booth): Booth {
    if ARMED !in AllowedTransitions(b.state) then b
    else b.(state := ARMED, sessionId := b.nextId, nextId := b.nextId + 1, deliverables := [], templated := false)
  }

  function Dismiss(b: Booth): Booth {
    var t := Transition(b, IDLE, None);
    if t.None? then b else t.value
  }

  // ---------------------------------------------------------------- capture()

  datatype Exit = InvalidTransition | CameraFault(message: string) | RenderFault | NoCapture

  /** The awaits of `capture()`, in order, then its two ends. */
  datatype Point =
    | CountdownStateSent
    | CountdownSent
    | Sleeping
    | WaitingForCamera
    | CapturingStateSent
    | Triggering
    | FetchingPreview
    | PreviewSent
    | FetchingFull
    | FullSent
    | FailureSent(message: string)
    | IdleStateSent(message: string)
    | Rendering
    | CompositeSent
    | ReviewStateSent
    | Returned
    | Raised(exit: Exit)

  datatype Frame = Frame(point: Point, shotIndex: nat, shotCount: SlotCount, captureIds: seq<Id>, current: Id)

  /** What an await came back with: a fault (a CameraError at a camera call, any exception at the render)
      or success, and whether the camera had a preview. */
  datatype Reply = Reply(fault: Option<string>, hasPreview: bool)

  predicate Finished(f: Frame) {
    f.point.Returned? || f.point.Raised?
  }

  function At(f: Frame, point: Point): Frame {
    f.(point := point)
  }

  /** The head of the shot loop, or what follows the loop. */
  function NextShot(b: Booth, f: Frame): (Booth, Frame) {
    if f.shotIndex < f.shotCount then
      var t := Transition(b, COUNTDOWN, None);
      if t.None? then (b, At(f, Raised(InvalidTransition))) else (t.value, At(f, CountdownStateSent))
    else Finalize(b, f)
  }

  function Finalize(b: Booth, f: Frame): (Booth, Frame) {
    if !b.templated || |f.captureIds| == 1 then
      if |f.captureIds| == 0 then (b, At(f, Raised(NoCapture)))
      else Deliver(b, f, f.captureIds[0])
    else (b, At(f, Rendering))
  }

  /** The lower-case hexadecimal name of an id, as `uuid4().hex` gives one. */
  function Hex(id: Id): string {
    var digits := "0123456789abcdef";
    if id < 16 then [digits[id]] else Hex(id / 16) + [digits[id % 16]]
  }

  function RemoteKey(id: Id): string {
    Hex(id) + ".jpg"
  }

  /** `_issue_share_token_and_enqueue_uploads`. */
  function IssueToken(b: Booth, id: Id): (Booth, Option<Id>) {
    if !b.queued then (b, None)
    else
      var token := b.nextId;
      (b.(nextId := token + 1,
          sessions := if b.sessionId in b.sessions
                      then b.sessions[b.sessionId := b.sessions[b.sessionId].(shareToken := Some(token))]
                      else b.sessions,
          uploads := b.uploads + [Upload(Full(id), RemoteKey(id), id)]),
       Some(token))
  }

  function Deliver(b: Booth, f: Frame, id: Id): (Booth, Frame) {
    var (issued, token) := IssueToken(b.(deliverables := [id]), id);
    var t := Transition(issued, REVIEW, token);
    if t.None? then (issued, At(f, Raised(InvalidTransition))) else (t.value, At(f, ReviewStateSent))
  }

  function FailShot(b: Booth, f: Frame, message: string): (Booth, Frame) {
    (Broadcast(b.(cameraIdle := true), CaptureFailed(b.sessionId, message)), At(f, FailureSent(message)))
  }

  /** `capture()` up to its first await. */
  function Begin(b: Booth): (Booth, Frame) {
    NextShot(b, Frame(CountdownStateSent, 0, b.shotCount, [], 0))
  }

  function EnterCapturing(b: Booth, f: Frame): (Booth, Frame) {
    var t := Transition(b, CAPTURING, None);
    if t.None? then (b, At(f, Raised(InvalidTransition))) else (t.value, At(f, CapturingStateSent))
  }

  function TriggerReturned(b: Booth, f: Frame, r: Reply): (Booth, Frame) {
    if r.fault.Some? then FailShot(b, f, r.fault.value)
    else
      var id := b.nextId;
      (b.(nextId := id + 1,
          captures := b.captures + [CaptureRow(id, b.sessionId, f.shotCount == 1)],
          camera := b.camera + [Triggered(id)]),
       f.(point := FetchingPreview, current := id))
  }

  function PreviewReturned(b: Booth, f: Frame, r: Reply): (Booth, Frame) {
    if r.fault.Some? then FailShot(b, f, r.fault.value)
    else if r.hasPreview then
      (Broadcast(b.(files := b.files + {Preview(f.current)}),
                 PreviewReady(b.sessionId, f.current, f.shotIndex, f.shotCount)),
       At(f, PreviewSent))
    else (b.(cameraIdle := false), At(f, FetchingFull))
  }

  function FullReturned(b: Booth, f: Frame, r: Reply): (Booth, Frame) {
    if r.fault.Some? then FailShot(b, f, r.fault.value)
    else
      (Broadcast(b.(cameraIdle := true, files := b.files + {Full(f.current)},
                    camera := b.camera + [Downloaded(f.current)]),
                 FullImageReady(b.sessionId, f.current)),
       f.(point := FullSent, captureIds := f.captureIds + [f.current]))
  }

  function FailureBroadcast(b: Booth, f: Frame, message: string): (Booth, Frame) {
    var t := Transition(b, IDLE, None);
    if t.None? then (b, At(f, Raised(InvalidTransition))) else (t.value, At(f, IdleStateSent(message)))
  }

  function RenderReturned(b: Booth, f: Frame, r: Reply): (Booth, Frame) {
    if r.fault.Some? then (b, At(f, Raised(RenderFault)))
    else
      var id := b.nextId;
      (Broadcast(b.(nextId := id + 1, files := b.files + {Full(id)},
                    captures := b.captures + [CaptureRow(id, b.sessionId, true)]),
                 FullImageReady(b.sessionId, id)),
       f.(point := CompositeSent, current := id))
  }

  /** `capture()` from the await it is suspended at to its next one. */
  function Resume(b: Booth, f: Frame, r: Reply): (Booth, Frame) {
    match f.point
    case CountdownStateSent =>
      (Broadcast(b, CountdownStarted(b.sessionId, f.shotIndex, f.shotCount)), At(f, CountdownSent))
    case CountdownSent => (b, At(f, Sleeping))
    case Sleeping => if b.cameraIdle then EnterCapturing(b, f) else (b, At(f, WaitingForCamera))
    // a woken waiter does not look at the flag again
    case WaitingForCamera => EnterCapturing(b, f)
    case CapturingStateSent => (b, At(f, Triggering))
    case Triggering => TriggerReturned(b, f, r)
    case FetchingPreview => PreviewReturned(b, f, r)
    case PreviewSent => (b.(cameraIdle := false), At(f, FetchingFull))
    case FetchingFull => FullReturned(b, f, r)
    case FullSent => NextShot(b, f.(shotIndex := f.shotIndex + 1))
    case FailureSent(message) => FailureBroadcast(b, f, message)
    case IdleStateSent(message) => (b, At(f, Raised(CameraFault(message))))
    case Rendering => RenderReturned(b, f, r)
    case CompositeSent => Deliver(b, f, f.current)
    case ReviewStateSent => (b, At(f, Returned))
    case Returned => (b, f)
    case Raised(_) => (b, f)
  }

  // ---------------------------------------------------------------- interleavings

  /** The booth and every `capture()` that was ever started. */
  datatype World = World(booth: Booth, captures: seq<Frame>)

  datatype Action =
    | ArmOk(slots: Option<SlotCount>)
    | ArmRaises
    | DismissNow
    | StartCapture
    | Wake(k: nat, reply: Reply)

  function Step(w: World, a: Action): World {
    match a
    case ArmOk(slots) => w.(booth := Arm(w.booth, slots))
    case ArmRaises => w.(booth := ArmRaising(w.booth))
    case DismissNow => w.(booth := Dismiss(w.booth))
    case StartCapture =>
      var (b, f) := Begin(w.booth);
      World(b, w.captures + [f])
    case Wake(k, reply) =>
      if k < |w.captures| then
        var (b, f) := Resume(w.booth, w.captures[k], reply);
        World(b, w.captures[k := f])
      else w
  }

  function Run(w: World, actions: seq<Action>): World
    decreases |actions|
  {
    if |actions| == 0 then w else Run(Step(w, actions[0]), actions[1..])
  }

  function Opening(queued: bool): World {
    World(NewBooth(queued), [])
  }
}
