/**
 The camera link is not safe by never answering: an exchange on a connection that stays up succeeds, whatever
 came before it and however the network splits its frames.
 */
module CameraExchange {
  import opened Results
  import opened Framing
  import opened CameraLink
  import opened LinkSafety

  /** Nothing is under way, and the worker listens on the client's connection, or for one if there is none. */
  predicate Ready(s: Link) {
    && s.phase.Free? && s.workerAlive
    && (if s.current.Some?
        then HasConnection(s) && s.serving == s.current.value
             && s.conns[s.serving].upOpen && s.conns[s.serving].downOpen
        else s.serving == |s.conns|)
  }

  function WorkerReads(sizes: seq<nat>): seq<Action> {
    if |sizes| == 0 then [] else [WorkerRead(sizes[0])] + WorkerReads(sizes[1..])
  }

  function ClientReads(sizes: seq<nat>): seq<Action> {
    if |sizes| == 0 then [] else [ClientRead(sizes[0])] + ClientReads(sizes[1..])
  }

  /** One request and its answer, with a dial if there is no connection yet; the sizes say how the network
      splits the two frames. */
  function Exchange(request: Request, response: Response, up: seq<nat>, down: seq<nat>): seq<Action> {
    [Acquire(request)] + ([Dial(true)] + ([Send] + (WorkerReads(up) +
      ([WorkerReply(response, true)] + (ClientReads(down) + [ClientReturn])))))
  }

  lemma {:induction false} RunConcat(c: Codec, s: Link, first: seq<Action>, second: seq<Action>)
    ensures Run(c, s, first + second) == Run(c, Run(c, s, first), second)
    decreases |first|
  {
    if |first| == 0 {
      assert first + second == second;
    } else {
      assert (first + second)[1..] == first[1..] + second;
      RunConcat(c, Step(c, s, first[0]), first[1..], second);
    }
  }

  /** As long as a frame is not complete a read that gets anything gets more of it. */
  lemma ReadTakesSome(payload: Bytes, buffer: Bytes, stream: Bytes, n: nat)
    requires Fits(payload) && buffer + stream == FrameBytes(payload) && |stream| > 0 && n > 0
    ensures 0 < Least(n, Least(Wanted(buffer), |stream|)) <= |stream|
  {
    assert buffer <= FrameBytes(payload);
    if |buffer| >= 4 {
      PrefixIsWhole(payload, buffer);
    }
  }

  predicate Enough(sizes: seq<nat>, bytes: nat) {
    (forall n | n in sizes :: n > 0) && |sizes| >= bytes
  }

  function WithUp(s: Link, got: Bytes, up: Bytes): Link
    requires Serving(s)
  {
    s.(conns := s.conns[s.serving := s.conns[s.serving].(got := got, up := up)])
  }

  function WithDown(s: Link, received: Bytes, down: Bytes): Link
    requires s.phase.Awaiting? && HasConnection(s)
  {
    s.(phase := s.phase.(received := received),
       conns := s.conns[s.current.value := s.conns[s.current.value].(down := down)])
  }

  lemma EnoughLater(sizes: seq<nat>, bytes: nat, fewer: nat)
    requires |sizes| > 0 && Enough(sizes, bytes) && (fewer < bytes || bytes == 0 == fewer)
    ensures sizes[0] > 0 && Enough(sizes[1..], fewer)
  {
    assert sizes[0] in sizes && forall n | n in sizes[1..] :: n in sizes;
  }

  /** However a frame is split, enough reads of the worker get all of it and stop at its end. */
  lemma {:induction false} WorkerReadsTakeFrame(c: Codec, s: Link, payload: Bytes, sizes: seq<nat>)
    requires Fits(payload) && Serving(s) && Enough(sizes, |s.conns[s.serving].up|)
    requires s.conns[s.serving].got + s.conns[s.serving].up == FrameBytes(payload)
    ensures Run(c, s, WorkerReads(sizes)) == WithUp(s, FrameBytes(payload), [])
    decreases |sizes|
  {
    var conn := s.conns[s.serving];
    if |sizes| == 0 {
      assert conn.got + conn.up == conn.got && WithUp(s, conn.got, conn.up) == s;
    } else {
      var got, up := WorkerReadMoves(c, s, sizes[0]);
      assert sizes[0] in sizes;
      if |conn.up| > 0 {
        ReadTakesSome(payload, conn.got, conn.up, sizes[0]);
      }
      EnoughLater(sizes, |conn.up|, |up|);
      RunFirst(c, s, WorkerRead(sizes[0]), WorkerReads(sizes[1..]));
      WorkerReadsTakeFrame(c, WithUp(s, got, up), payload, sizes[1..]);
    }
  }

  /** And enough reads of the client. */
  lemma {:induction false} ClientReadsTakeFrame(c: Codec, s: Link, payload: Bytes, sizes: seq<nat>)
    requires Fits(payload) && s.phase.Awaiting? && HasConnection(s) && Enough(sizes, |s.conns[s.current.value].down|)
    requires s.phase.received + s.conns[s.current.value].down == FrameBytes(payload)
    ensures Run(c, s, ClientReads(sizes)) == WithDown(s, FrameBytes(payload), [])
    decreases |sizes|
  {
    var conn := s.conns[s.current.value];
    if |sizes| == 0 {
      assert s.phase.received + conn.down == s.phase.received && WithDown(s, s.phase.received, conn.down) == s;
    } else {
      var received, down := ClientReadMoves(c, s, sizes[0]);
      assert sizes[0] in sizes;
      if |conn.down| > 0 {
        ReadTakesSome(payload, s.phase.received, conn.down, sizes[0]);
      }
      EnoughLater(sizes, |conn.down|, |down|);
      RunFirst(c, s, ClientRead(sizes[0]), ClientReads(sizes[1..]));
      ClientReadsTakeFrame(c, WithDown(s, received, down), payload, sizes[1..]);
    }
  }

  /** The request has been written and waits in flight, whole. */
  ghost predicate Requested(c: Codec, s: Link, request: Request, r: Link) {
    && r.phase == Awaiting(|s.issued|, []) && r.issued == s.issued + [request]
    && r.workerAlive && r.executed == s.executed && r.results == s.results
    && HasConnection(r) && r.serving == r.current.value
    && r.conns[r.serving] == Connection(RequestFrame(c, request), true, [], [], true, Some(|s.issued|))
  }

  lemma RequestSent(c: Codec, s: Link, request: Request)
    requires Inv(c, s) && Ready(s) && Fits(c.encodeRequest(request))
    ensures Requested(c, s, request, Step(c, Step(c, Step(c, s, Acquire(request)), Dial(true)), Send))
  {
    var frame := RequestFrame(c, request);
    assert [] + frame == frame;
    if s.current.Some? {
      assert UpstreamOk(c, s.issued, s.answers, s.conns[s.serving]);
      assert DownstreamOk(c, s.phase, s.answers, s.conns[s.serving]);
    }
  }

  /** The worker has executed the request and its answer is in flight, whole. */
  ghost predicate Replied(c: Codec, s: Link, request: Request, response: Response, r: Link) {
    && r.phase == Awaiting(|s.issued|, []) && r.workerAlive
    && r.executed == s.executed + [Execution(|s.issued|, request)] && r.results == s.results
    && HasConnection(r) && r.serving == r.current.value
    && r.conns[r.serving] == Connection([], true, [], ResponseFrame(c, response), true, Some(|s.issued|))
  }

  lemma RequestServed(c: Codec, s: Link, request: Request, response: Response, r: Link, sizes: seq<nat>)
    requires Lawful(c) && Requested(c, s, request, r)
    requires Fits(c.encodeRequest(request)) && Fits(c.encodeResponse(response))
    requires Enough(sizes, |RequestFrame(c, request)|)
    ensures Replied(c, s, request, response, Step(c, Run(c, r, WorkerReads(sizes)), WorkerReply(response, true)))
  {
    var frame := RequestFrame(c, request);
    assert [] + frame == frame;
    WorkerReadsTakeFrame(c, r, c.encodeRequest(request), sizes);
    ReplyTo(c, s, request, response, r, WithUp(r, frame, []));
  }

  lemma ReplyTo(c: Codec, s: Link, request: Request, response: Response, r: Link, t: Link)
    requires Lawful(c) && Requested(c, s, request, r)
    requires Fits(c.encodeRequest(request)) && Fits(c.encodeResponse(response))
    requires t == WithUp(r, RequestFrame(c, request), [])
    ensures Replied(c, s, request, response, Step(c, t, WorkerReply(response, true)))
  {
    var payload := c.encodeRequest(request);
    PrefixIsWhole(payload, FrameBytes(payload));
    var conn := t.conns[t.serving];
    assert Complete(conn.got) && c.decodeRequest(conn.got[4..]) == Some(request);
    assert conn.down + ResponseFrame(c, response) == ResponseFrame(c, response);
  }

  lemma AnswerReturned(c: Codec, s: Link, request: Request, response: Response, r: Link, sizes: seq<nat>)
    requires Lawful(c) && Replied(c, s, request, response, r) && Fits(c.encodeResponse(response))
    requires Enough(sizes, |ResponseFrame(c, response)|)
    ensures Exchanged(s, request, response, Step(c, Run(c, r, ClientReads(sizes)), ClientReturn))
  {
    var frame := ResponseFrame(c, response);
    assert [] + frame == frame;
    ClientReadsTakeFrame(c, r, c.encodeResponse(response), sizes);
    ReturnAnswer(c, s, request, response, r, WithDown(r, frame, []));
  }

  lemma ReturnAnswer(c: Codec, s: Link, request: Request, response: Response, r: Link, t: Link)
    requires Lawful(c) && Replied(c, s, request, response, r) && Fits(c.encodeResponse(response))
    requires t == WithDown(r, ResponseFrame(c, response), [])
    ensures Exchanged(s, request, response, Step(c, t, ClientReturn))
  {
    var payload := c.encodeResponse(response);
    PrefixIsWhole(payload, FrameBytes(payload));
    assert c.decodeResponse(t.phase.received[4..]) == Some(response);
  }

  /** The exchange is over: its answer is the request's result, and the link is ready again. */
  ghost predicate Exchanged(s: Link, request: Request, response: Response, r: Link) {
    && Ready(r) && r.results == s.results[|s.issued| := Ok(response)]
    && r.executed == s.executed + [Execution(|s.issued|, request)]
  }

  /** The link is not safe by never answering.  From every reachable state in which the lock is free and
      the connection is up or can be dialled, a request whose frames fit is executed once and returns its response,
      however the network       splits the two frames, and leaves the link ready for the next one. */
  lemma {:induction false} QuietExchangeSucceeds(c: Codec, s: Link, request: Request, response: Response,
                                                 up: seq<nat>, down: seq<nat>)
    requires Lawful(c) && Inv(c, s) && Ready(s)
    requires Fits(c.encodeRequest(request)) && Fits(c.encodeResponse(response))
    requires Enough(up, |RequestFrame(c, request)|)
    requires Enough(down, |ResponseFrame(c, response)|)
    ensures Exchanged(s, request, response, Run(c, s, Exchange(request, response, up, down)))
  {
    var back := ClientReads(down) + [ClientReturn];
    var served := WorkerReads(up) + ([WorkerReply(response, true)] + back);
    RequestSent(c, s, request);
    var s1 := Step(c, s, Acquire(request));
    RunFirst(c, s, Acquire(request), [Dial(true)] + ([Send] + served));
    RunFirst(c, s1, Dial(true), [Send] + served);
    RunFirst(c, Step(c, s1, Dial(true)), Send, served);
    var s2 := Step(c, Step(c, s1, Dial(true)), Send);
    RunConcat(c, s2, WorkerReads(up), [WorkerReply(response, true)] + back);
    RequestServed(c, s, request, response, s2, up);
    var s3 := Run(c, s2, WorkerReads(up));
    RunFirst(c, s3, WorkerReply(response, true), back);
    var s4 := Step(c, s3, WorkerReply(response, true));
    RunConcat(c, s4, ClientReads(down), [ClientReturn]);
    AnswerReturned(c, s, request, response, s4, down);
    var s5 := Run(c, s4, ClientReads(down));
    assert [ClientReturn] + [] == [ClientReturn];
    RunFirst(c, s5, ClientReturn, []);
  }

  lemma RunFirst(c: Codec, s: Link, a: Action, rest: seq<Action>)
    ensures Run(c, s, [a] + rest) == Run(c, Step(c, s, a), rest)
  {
    assert ([a] + rest)[1..] == rest;
  }
}
