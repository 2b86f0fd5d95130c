/**
 The lock-step between camera/client.py and camera/worker.py over connections that may drop at any byte,
 as a step system on byte streams.

 Callers are serialised by the client's lock; the ticket of a request is its place in lock order.  The
 worker serves the connections one after another in the order in which they were opened.  The payload
 codec is a parameter.
 */
module CameraLink {
  import opened Results
  import opened Framing

  datatype Request =
    | Connect | Disconnect | Reconnect | GetStatus | TriggerAutofocus | TriggerCapture
    | DownloadPreview(captureId: string)
    | DownloadFull(captureId: string)

  datatype Response =
    | Done
    | StatusResult(connected: bool)
    | CaptureResult(captureId: string)
    | ImageResult(kind: string, data: Bytes, width: int, height: int)
    | NoPreview
    | ErrorResult(errorType: string, message: string)

  datatype Codec = Codec(
    encodeRequest: Request -> Bytes, decodeRequest: Bytes -> Option<Request>,
    encodeResponse: Response -> Bytes, decodeResponse: Bytes -> Option<Response>)

  ghost predicate Lawful(c: Codec) {
    && (forall r: Request :: c.decodeRequest(c.encodeRequest(r)) == Some(r))
    && (forall r: Response :: c.decodeResponse(c.encodeResponse(r)) == Some(r))
  }

  datatype Failure = Disconnected | FrameOversized | Unencodable | Undecodable

  /** `up` and `down` are bytes in flight, `got` what the worker has read of the current frame; `ticket` is
      the request last written on this connection (history). */
  datatype Connection = Connection(
    up: Bytes, upOpen: bool, got: Bytes, down: Bytes, downOpen: bool, ticket: Option<nat>)

  datatype Phase = Free | Locked(ticket: nat) | Awaiting(ticket: nat, received: Bytes)

  datatype Execution = Execution(ticket: nat, request: Request)

  datatype Link = Link(
    phase: Phase,
    current: Option<nat>,
    conns: seq<Connection>,
    serving: nat,
    workerAlive: bool,
    issued: seq<Request>,
    executed: seq<Execution>,
    answers: map<nat, Response>,
    results: map<nat, Result<Response, Failure>>)

  datatype Action =
    | Acquire(request: Request)
    | Dial(reached: bool)
    | Send
    | ClientRead(n: nat)
    | ClientReturn
    | ClientFault
    | WorkerRead(n: nat)
    | WorkerReply(response: Response, survives: bool)
    | WorkerClose
    | Drop(k: nat, keepUp: nat, keepDown: nat)

  const FRESH_CONNECTION: Connection := Connection([], true, [], [], true, None)

  const START: Link := Link(Free, None, [], 0, true, [], [], map[], map[])

  /** How many more bytes `readexactly` / `_read_exact` may take before the frame is complete. */
  function Wanted(buffer: Bytes): nat {
    if |buffer| < 4 then 4 - |buffer|
    else
      var length := ReadFrameLength(buffer[..4]);
      if length.Ok? && 4 + length.value > |buffer| then 4 + length.value - |buffer| else 0
  }

  predicate Complete(buffer: Bytes) {
    |buffer| >= 4 && ReadFrameLength(buffer[..4]) == Ok(|buffer| - 4)
  }

  predicate TooLarge(buffer: Bytes) {
    |buffer| >= 4 && ReadFrameLength(buffer[..4]).Err?
  }

  function Least(a: nat, b: nat): nat {
    if a <= b then a else b
  }

  function RequestFrame(c: Codec, request: Request): Bytes {
    var payload := c.encodeRequest(request);
    if Framable(payload) then FrameBytes(payload) else []
  }

  /** The bytes the worker sends; none if the length does not fit its prefix. */
  function ResponseFrame(c: Codec, response: Response): Bytes {
    var payload := c.encodeResponse(response);
    if Framable(payload) then FrameBytes(payload) else []
  }

  /** `close()`. */
  function Closed(s: Link): Link {
    if s.current.Some? && s.current.value < |s.conns| then
      var k := s.current.value;
      s.(current := None, conns := s.conns[k := s.conns[k].(upOpen := false, downOpen := false)])
    else s.(current := None)
  }

  /** The request holding the lock ends with `result` and releases it. */
  function Release(s: Link, result: Result<Response, Failure>): Link
    requires !s.phase.Free?
  {
    s.(phase := Free, results := s.results[s.phase.ticket := result])
  }

  predicate HasConnection(s: Link) {
    s.current.Some? && s.current.value < |s.conns|
  }

  predicate Serving(s: Link) {
    s.workerAlive && s.serving < |s.conns|
  }

  function Step(c: Codec, s: Link, a: Action): Link {
    match a
    case Acquire(request) =>
      if s.phase.Free? then s.(phase := Locked(|s.issued|), issued := s.issued + [request]) else s
    case Dial(reached) =>
      if s.phase.Locked? && s.current.None? then
        if reached then s.(current := Some(|s.conns|), conns := s.conns + [FRESH_CONNECTION])
        else Release(s, Err(Disconnected))
      else s
    case Send =>
      if s.phase.Locked? && HasConnection(s) && s.phase.ticket < |s.issued| then
        var k, t := s.current.value, s.phase.ticket;
        var conn := s.conns[k];
        // the length is encoded before anything is written
        if !Framable(c.encodeRequest(s.issued[t])) then Release(s, Err(Unencodable))
        else s.(phase := Awaiting(t, []),
                conns := if conn.upOpen
                         then s.conns[k := conn.(up := conn.up + RequestFrame(c, s.issued[t]), ticket := Some(t))]
                         else s.conns)
      else s
    case ClientRead(n) =>
      if s.phase.Awaiting? && HasConnection(s) then
        var k := s.current.value;
        var conn := s.conns[k];
        var size := Least(n, Least(Wanted(s.phase.received), |conn.down|));
        s.(phase := s.phase.(received := s.phase.received + conn.down[..size]),
           conns := s.conns[k := conn.(down := conn.down[size..])])
      else s
    case ClientReturn =>
      if s.phase.Awaiting? && Complete(s.phase.received) then
        var response := c.decodeResponse(s.phase.received[4..]);
        Release(s, if response.Some? then Ok(response.value) else Err(Undecodable))
      else if s.phase.Awaiting? && TooLarge(s.phase.received) then Release(Closed(s), Err(FrameOversized))
      else s
    case ClientFault =>
      if !s.phase.Free? && HasConnection(s) then Release(Closed(s), Err(Disconnected)) else s
    case WorkerRead(n) =>
      if Serving(s) then
        var conn := s.conns[s.serving];
        var size := Least(n, Least(Wanted(conn.got), |conn.up|));
        s.(conns := s.conns[s.serving := conn.(got := conn.got + conn.up[..size], up := conn.up[size..])])
      else s
    case WorkerReply(response, survives) =>
      if Serving(s) && Complete(s.conns[s.serving].got) && s.conns[s.serving].ticket.Some?
         && c.decodeRequest(s.conns[s.serving].got[4..]).Some? then
        var conn := s.conns[s.serving];
        var t, request := conn.ticket.value, c.decodeRequest(conn.got[4..]).value;
        s.(executed := s.executed + [Execution(t, request)],
           answers := s.answers[t := response],
           workerAlive := Framable(c.encodeResponse(response)) && (conn.downOpen || survives),
           conns := s.conns[s.serving := conn.(got := [], down := if conn.downOpen
                                                                  then conn.down + ResponseFrame(c, response)
                                                                  else conn.down)])
      else s
    case WorkerClose =>
      if Serving(s) && s.conns[s.serving].up == [] && !s.conns[s.serving].upOpen then
        s.(serving := s.serving + 1,
           conns := s.conns[s.serving := s.conns[s.serving].(got := [], downOpen := false)])
      else if Serving(s) && TooLarge(s.conns[s.serving].got) then
        // the exception of read_frame_length ends the process
        s.(workerAlive := false,
           conns := s.conns[s.serving := s.conns[s.serving].(up := [], upOpen := false, got := [], downOpen := false)])
      else s
    case Drop(k, keepUp, keepDown) =>
      if k < |s.conns| then
        var conn := s.conns[k];
        s.(conns := s.conns[k := conn.(up := conn.up[..Least(keepUp, |conn.up|)], upOpen := false,
                                       down := conn.down[..Least(keepDown, |conn.down|)], downOpen := false)])
      else s
  }

  function Run(c: Codec, s: Link, actions: seq<Action>): Link
    decreases |actions|
  {
    if |actions| == 0 then s else Run(c, Step(c, s, actions[0]), actions[1..])
  }

  // ---------------------------------------------------------------- exceptions across the link

  /** How a backend call ends. */
  datatype BackendOutcome =
    | Value(response: Response)
    | CameraDisconnected(message: string)
    | CameraFailed(message: string)

  /** The `except` clauses of `_handle_request`. */
  function Encoded(outcome: BackendOutcome): Response {
    match outcome
    case Value(response) => response
    case CameraDisconnected(message) => ErrorResult("disconnected", message)
    case CameraFailed(message) => ErrorResult("error", message)
  }

  /** `_raise_for_error`. */
  function Raised(response: Response): BackendOutcome {
    if !response.ErrorResult? then Value(response)
    else if response.errorType == "disconnected" then CameraDisconnected(response.message)
    else CameraFailed(response.message)
  }

  /** The caller sees the exception the backend raised, with its message.  On the wire a lost camera is an error of
      type "disconnected"; an error of any other type is a plain camera error. */
  lemma ExceptionsSurviveTheLink(outcome: BackendOutcome, errorType: string, message: string)
    ensures (outcome.Value? ==> !outcome.response.ErrorResult?) ==> Raised(Encoded(outcome)) == outcome
    ensures Encoded(CameraDisconnected(message)) == ErrorResult("disconnected", message)
    ensures Encoded(CameraFailed(message)) == ErrorResult("error", message)
    ensures Raised(ErrorResult(errorType, message))
         == if errorType == "disconnected" then CameraDisconnected(message) else CameraFailed(message)
  {
    var a, b := "disconnected", "error";
    assert |a| != |b|;
  }
}
