/**
 What every step of the camera link keeps: whatever is in flight on a connection is a prefix of the one exchange
 that is open there.  So answers reach the callers whose requests they answer.
 */
module LinkSafety {
  import opened Results
  import opened Framing
  import opened CameraLink

  // ---------------------------------------------------------------- the invariant

  predicate Answered(answers: map<nat, Response>, t: Option<nat>) {
    t.None? || t.value in answers
  }

  /** What the worker can still read on a connection is a prefix of the one request that is open there. */
  ghost predicate UpstreamOk(c: Codec, issued: seq<Request>, answers: map<nat, Response>, conn: Connection) {
    && (Answered(answers, conn.ticket) ==> conn.up == [] && conn.got == [])
    && (conn.ticket.Some? ==>
          && conn.ticket.value < |issued|
          && conn.got + conn.up <= RequestFrame(c, issued[conn.ticket.value]))
  }

  /** What the client has read and can still read is a prefix of the answer to the request it waits for. */
  ghost predicate DownstreamOk(c: Codec, phase: Phase, answers: map<nat, Response>, conn: Connection) {
    if phase.Awaiting? && conn.ticket == Some(phase.ticket) then
      if phase.ticket in answers
      then phase.received + conn.down <= ResponseFrame(c, answers[phase.ticket])
      else phase.received == [] && conn.down == []
    else
      Answered(answers, conn.ticket) && conn.down == [] && (phase.Awaiting? ==> phase.received == [])
  }

  ghost predicate TicketsOk(s: Link) {
    && s.serving <= |s.conns|
    && (!s.phase.Free? ==> s.phase.ticket + 1 == |s.issued|)
    && (forall k, l | 0 <= k < l < |s.conns| && s.conns[k].ticket.Some? && s.conns[l].ticket.Some? ::
          s.conns[k].ticket.value < s.conns[l].ticket.value)
    && (s.phase.Locked? ==>
          && s.phase.ticket !in s.answers
          && forall k | 0 <= k < |s.conns| :: s.conns[k].ticket != Some(s.phase.ticket))
  }

  predicate WasExecuted(executed: seq<Execution>, t: nat) {
    exists i :: 0 <= i < |executed| && executed[i].ticket == t
  }

  /** The backend executed requests as issued, in lock order, each at most once; answers come from executions. */
  ghost predicate ExecutedInOrder(issued: seq<Request>, executed: seq<Execution>, answered: set<nat>) {
    && (forall i | 0 <= i < |executed| ::
          && executed[i].ticket < |issued|
          && executed[i].ticket in answered
          && executed[i].request == issued[executed[i].ticket])
    && (forall i, j | 0 <= i < j < |executed| :: executed[i].ticket < executed[j].ticket)
    && (forall t | t in answered :: t < |issued| && WasExecuted(executed, t))
  }

  /** A request that can still be read comes after every one that was executed. */
  ghost predicate OpenAhead(s: Link) {
    forall i, k | 0 <= i < |s.executed| && s.serving <= k < |s.conns| && !Answered(s.answers, s.conns[k].ticket) ::
      s.executed[i].ticket < s.conns[k].ticket.value
  }

  ghost predicate ExecutedOk(s: Link) {
    ExecutedInOrder(s.issued, s.executed, s.answers.Keys) && OpenAhead(s)
  }

  ghost predicate ResultsOk(s: Link) {
    forall t | t in s.results ::
      && t < |s.issued|
      && (s.results[t].Ok? ==> t in s.answers && s.answers[t] == s.results[t].value)
      && (!s.phase.Free? ==> t != s.phase.ticket)
  }

  ghost predicate AllUpstreamOk(c: Codec, s: Link) {
    forall k | 0 <= k < |s.conns| :: UpstreamOk(c, s.issued, s.answers, s.conns[k])
  }

  ghost predicate CurrentOk(c: Codec, s: Link) {
    && (s.phase.Awaiting? ==> s.current.Some?)
    && (s.current.Some? ==>
          && s.current.value + 1 == |s.conns|
          && DownstreamOk(c, s.phase, s.answers, s.conns[s.current.value]))
  }

  ghost predicate Inv(c: Codec, s: Link) {
    TicketsOk(s) && ExecutedOk(s) && ResultsOk(s) && AllUpstreamOk(c, s) && CurrentOk(c, s)
  }

  predicate SameTicket(p: Phase, q: Phase) {
    (p.Free? && q.Free?) || (p.Locked? && q.Locked? && p.ticket == q.ticket)
    || (p.Awaiting? && q.Awaiting? && p.ticket == q.ticket)
  }

  /** Bytes moved on one connection, or it was closed; no request was written, executed or ended. */
  lemma BytesMove(c: Codec, s: Link, r: Link, k: nat)
    requires Inv(c, s) && k < |s.conns| && |r.conns| == |s.conns|
    requires forall l | 0 <= l < |s.conns| && l != k :: r.conns[l] == s.conns[l]
    requires r.conns[k].ticket == s.conns[k].ticket && UpstreamOk(c, s.issued, s.answers, r.conns[k])
    requires s.serving <= r.serving <= |r.conns| && SameTicket(s.phase, r.phase)
    requires r.issued == s.issued && r.executed == s.executed && r.answers == s.answers && r.results == s.results
    ensures TicketsOk(r) && ExecutedOk(r) && ResultsOk(r) && AllUpstreamOk(c, r)
  {
    assert forall l | 0 <= l < |s.conns| :: r.conns[l].ticket == s.conns[l].ticket;
    assert TicketsOk(r);
    assert ExecutedOk(r);
  }

  // ---------------------------------------------------------------- steps of the client

  lemma AcquireKeepsInv(c: Codec, s: Link, request: Request)
    requires Inv(c, s)
    ensures Inv(c, Step(c, s, Acquire(request)))
  {
    var r := Step(c, s, Acquire(request));
    if s.phase.Free? {
      forall k | 0 <= k < |r.conns|
        ensures UpstreamOk(c, r.issued, r.answers, r.conns[k]) && r.conns[k].ticket != Some(|s.issued|)
      {
        assert UpstreamOk(c, s.issued, s.answers, s.conns[k]);
      }
    }
  }

  function Dialled(s: Link): Link {
    s.(current := Some(|s.conns|), conns := s.conns + [FRESH_CONNECTION])
  }

  lemma DialKeepsTickets(c: Codec, s: Link)
    requires Inv(c, s)
    ensures TicketsOk(Dialled(s)) && ResultsOk(Dialled(s))
  {
    assert forall k | 0 <= k < |s.conns| :: Dialled(s).conns[k] == s.conns[k];
    assert Dialled(s).conns[|s.conns|].ticket.None?;
  }

  lemma DialKeepsUpstream(c: Codec, s: Link)
    requires Inv(c, s)
    ensures AllUpstreamOk(c, Dialled(s))
  {
    forall k | 0 <= k < |s.conns| + 1 ensures UpstreamOk(c, s.issued, s.answers, Dialled(s).conns[k]) {
      assert k < |s.conns| ==> UpstreamOk(c, s.issued, s.answers, s.conns[k]);
    }
  }

  lemma DialKeepsExecuted(c: Codec, s: Link)
    requires Inv(c, s)
    ensures ExecutedOk(Dialled(s))
  {
    assert forall k | 0 <= k < |s.conns| :: Dialled(s).conns[k] == s.conns[k];
  }

  lemma DialKeepsInv(c: Codec, s: Link, reached: bool)
    requires Inv(c, s)
    ensures Inv(c, Step(c, s, Dial(reached)))
  {
    if s.phase.Locked? && s.current.None? {
      if reached {
        DialKeepsTickets(c, s);
        DialKeepsUpstream(c, s);
        DialKeepsExecuted(c, s);
        assert CurrentOk(c, Dialled(s));
      } else {
        ReleaseKeepsInv(c, s, Err(Disconnected));
      }
    }
  }

  lemma SendKeepsUpstream(c: Codec, s: Link)
    requires Inv(c, s) && Lawful(c) && s.phase.Locked? && HasConnection(s)
    requires Framable(c.encodeRequest(s.issued[s.phase.ticket]))
    ensures AllUpstreamOk(c, Step(c, s, Send))
    ensures CurrentOk(c, Step(c, s, Send))
  {
    var r := Step(c, s, Send);
    var k := s.current.value;
    assert UpstreamOk(c, s.issued, s.answers, s.conns[k]);
    assert s.conns[k].up == [] && s.conns[k].got == [];
    assert s.phase.ticket !in s.answers;
    forall l | 0 <= l < |r.conns| && l != k ensures r.conns[l] == s.conns[l] {
    }
    if s.conns[k].upOpen {
      assert [] + RequestFrame(c, s.issued[s.phase.ticket]) == RequestFrame(c, s.issued[s.phase.ticket]);
    }
  }

  lemma SendKeepsTickets(c: Codec, s: Link)
    requires Inv(c, s) && s.phase.Locked? && HasConnection(s)
    requires Framable(c.encodeRequest(s.issued[s.phase.ticket]))
    ensures TicketsOk(Step(c, s, Send)) && ResultsOk(Step(c, s, Send))
  {
    var r := Step(c, s, Send);
    forall l | 0 <= l < |s.conns| && s.conns[l].ticket.Some?
      ensures s.conns[l].ticket.value < s.phase.ticket
    {
      assert UpstreamOk(c, s.issued, s.answers, s.conns[l]);
    }
    assert forall l | 0 <= l < |r.conns| && l != s.current.value :: r.conns[l] == s.conns[l];
  }

  lemma SendKeepsExecuted(c: Codec, s: Link)
    requires Inv(c, s) && s.phase.Locked? && HasConnection(s)
    requires Framable(c.encodeRequest(s.issued[s.phase.ticket]))
    ensures ExecutedOk(Step(c, s, Send))
  {
    var r := Step(c, s, Send);
    forall i | 0 <= i < |s.executed| ensures s.executed[i].ticket < s.phase.ticket {
      assert s.executed[i].ticket in s.answers;
    }
    forall i, k | 0 <= i < |r.executed| && r.serving <= k < |r.conns| && !Answered(r.answers, r.conns[k].ticket)
      ensures r.executed[i].ticket < r.conns[k].ticket.value
    {
      assert k != s.current.value ==> r.conns[k] == s.conns[k];
    }
  }

  lemma SendKeepsInv(c: Codec, s: Link)
    requires Inv(c, s) && Lawful(c)
    ensures Inv(c, Step(c, s, Send))
  {
    if s.phase.Locked? && HasConnection(s) && !Framable(c.encodeRequest(s.issued[s.phase.ticket])) {
      ReleaseKeepsInv(c, s, Err(Unencodable));
    } else if s.phase.Locked? && HasConnection(s) {
      SendKeepsUpstream(c, s);
      SendKeepsTickets(c, s);
      SendKeepsExecuted(c, s);
    }
  }

  /** What a read of the client comes to: bytes move from the stream into what it has received. */
  lemma ClientReadMoves(c: Codec, s: Link, n: nat) returns (received: Bytes, down: Bytes)
    requires s.phase.Awaiting? && HasConnection(s)
    ensures received + down == s.phase.received + s.conns[s.current.value].down
    ensures |down| == |s.conns[s.current.value].down|
                      - Least(n, Least(Wanted(s.phase.received), |s.conns[s.current.value].down|))
    ensures Step(c, s, ClientRead(n))
         == s.(phase := s.phase.(received := received),
               conns := s.conns[s.current.value := s.conns[s.current.value].(down := down)])
  {
    var conn := s.conns[s.current.value];
    var size := Least(n, Least(Wanted(s.phase.received), |conn.down|));
    received, down := s.phase.received + conn.down[..size], conn.down[size..];
    TakenFromStream(s.phase.received, conn.down, size);
  }

  lemma ReceivedKeepsInv(c: Codec, s: Link, received: Bytes, down: Bytes, r: Link)
    requires Inv(c, s) && s.phase.Awaiting?
    requires received + down == s.phase.received + s.conns[s.current.value].down
    requires r == s.(phase := s.phase.(received := received),
                     conns := s.conns[s.current.value := s.conns[s.current.value].(down := down)])
    ensures Inv(c, r)
  {
    var k := s.current.value;
    assert UpstreamOk(c, s.issued, s.answers, s.conns[k]);
    BytesMove(c, s, r, k);
    assert |received| + |down| == |received + down|;
    assert DownstreamOk(c, r.phase, r.answers, r.conns[k]);
  }

  lemma ClientReadKeepsInv(c: Codec, s: Link, n: nat)
    requires Inv(c, s)
    ensures Inv(c, Step(c, s, ClientRead(n)))
  {
    if s.phase.Awaiting? {
      var received, down := ClientReadMoves(c, s, n);
      ReceivedKeepsInv(c, s, received, down, Step(c, s, ClientRead(n)));
    }
  }

  /** The heart of the lock-step: a complete frame that the client has read is the answer to its request. */
  lemma CompleteFrameIsAnswer(c: Codec, s: Link)
    requires Inv(c, s) && Lawful(c) && s.phase.Awaiting? && Complete(s.phase.received)
    ensures s.phase.ticket in s.answers
    ensures c.decodeResponse(s.phase.received[4..]) == Some(s.answers[s.phase.ticket])
    ensures s.conns[s.current.value].down == []
  {
    var conn := s.conns[s.current.value];
    var payload := c.encodeResponse(s.answers[s.phase.ticket]);
    PrefixIsWhole(payload, s.phase.received);
    assert |s.phase.received + conn.down| <= |FrameBytes(payload)|;
  }

  lemma CloseKeepsInv(c: Codec, s: Link, failure: Failure)
    requires Inv(c, s) && !s.phase.Free? && HasConnection(s)
    ensures Inv(c, Release(Closed(s), Err(failure)))
  {
    var k := s.current.value;
    assert UpstreamOk(c, s.issued, s.answers, s.conns[k]);
    BytesMove(c, s, Closed(s), k);
    ReleaseKeepsInv(c, Closed(s), Err(failure));
  }

  lemma ReleaseKeepsInv(c: Codec, s: Link, result: Result<Response, Failure>)
    requires TicketsOk(s) && ExecutedOk(s) && ResultsOk(s) && AllUpstreamOk(c, s) && !s.phase.Free?
    requires result.Ok? ==> s.phase.ticket in s.answers && s.answers[s.phase.ticket] == result.value
    requires s.current.Some? ==>
               && s.current.value + 1 == |s.conns|
               && DownstreamOk(c, Free, s.answers, s.conns[s.current.value])
    ensures Inv(c, Release(s, result))
  {
  }

  lemma ClientReturnKeepsInv(c: Codec, s: Link)
    requires Inv(c, s) && Lawful(c)
    ensures Inv(c, Step(c, s, ClientReturn))
  {
    if s.phase.Awaiting? && Complete(s.phase.received) {
      CompleteFrameIsAnswer(c, s);
      ReleaseKeepsInv(c, s, Ok(s.answers[s.phase.ticket]));
    } else if s.phase.Awaiting? && TooLarge(s.phase.received) {
      CloseKeepsInv(c, s, FrameOversized);
    }
  }

  // ---------------------------------------------------------------- steps of the worker and the network

  lemma TakenFromStream(got: Bytes, up: Bytes, size: nat)
    requires size <= |up|
    ensures got + up[..size] + up[size..] == got + up
  {
    assert up[..size] + up[size..] == up;
  }

  /** What a read of the worker comes to: bytes move from the stream into its buffer. */
  lemma WorkerReadMoves(c: Codec, s: Link, n: nat) returns (got: Bytes, up: Bytes)
    requires Serving(s)
    ensures got + up == s.conns[s.serving].got + s.conns[s.serving].up
    ensures |up| == |s.conns[s.serving].up| - Least(n, Least(Wanted(s.conns[s.serving].got), |s.conns[s.serving].up|))
    ensures Step(c, s, WorkerRead(n)) == s.(conns := s.conns[s.serving := s.conns[s.serving].(got := got, up := up)])
  {
    var conn := s.conns[s.serving];
    var size := Least(n, Least(Wanted(conn.got), |conn.up|));
    got, up := conn.got + conn.up[..size], conn.up[size..];
    TakenFromStream(conn.got, conn.up, size);
  }

  lemma MovedKeepsInv(c: Codec, s: Link, got: Bytes, up: Bytes, r: Link)
    requires Inv(c, s) && Serving(s) && got + up == s.conns[s.serving].got + s.conns[s.serving].up
    requires r == s.(conns := s.conns[s.serving := s.conns[s.serving].(got := got, up := up)])
    ensures Inv(c, r)
  {
    assert UpstreamOk(c, s.issued, s.answers, s.conns[s.serving]);
    assert |got| + |up| == |got + up|;
    assert UpstreamOk(c, s.issued, s.answers, r.conns[s.serving]);
    BytesMove(c, s, r, s.serving);
  }

  lemma WorkerReadKeepsInv(c: Codec, s: Link, n: nat)
    requires Inv(c, s)
    ensures Inv(c, Step(c, s, WorkerRead(n)))
  {
    if Serving(s) {
      var got, up := WorkerReadMoves(c, s, n);
      MovedKeepsInv(c, s, got, up, Step(c, s, WorkerRead(n)));
    }
  }

  /** A complete frame that the worker has read is the open request of that connection. */
  lemma CompleteFrameIsRequest(c: Codec, s: Link)
    requires Inv(c, s) && Lawful(c) && Serving(s) && Complete(s.conns[s.serving].got)
    ensures var conn := s.conns[s.serving];
            && conn.ticket.Some? && conn.ticket.value < |s.issued| && conn.ticket.value !in s.answers
            && c.decodeRequest(conn.got[4..]) == Some(s.issued[conn.ticket.value])
            && conn.up == []
  {
    var conn := s.conns[s.serving];
    assert UpstreamOk(c, s.issued, s.answers, conn);
    var payload := c.encodeRequest(s.issued[conn.ticket.value]);
    assert Framable(payload);
    PrefixIsWhole(payload, conn.got);
    assert |conn.got + conn.up| <= |FrameBytes(payload)|;
  }

  lemma ExecutedAppend(executed: seq<Execution>, e: Execution, t: nat)
    ensures WasExecuted(executed + [e], t) <==> WasExecuted(executed, t) || e.ticket == t
  {
    var all := executed + [e];
    assert all[|executed|] == e;
    if WasExecuted(executed, t) {
      var i :| 0 <= i < |executed| && executed[i].ticket == t;
      assert all[i].ticket == t;
    }
  }

  /** One more execution, of a ticket behind all others. */
  lemma OneMoreExecuted(issued: seq<Request>, executed: seq<Execution>, answered: set<nat>, t: nat)
    requires ExecutedInOrder(issued, executed, answered) && t < |issued|
    requires forall i | 0 <= i < |executed| :: executed[i].ticket < t
    ensures ExecutedInOrder(issued, executed + [Execution(t, issued[t])], answered + {t})
  {
    forall u | u in answered + {t} ensures WasExecuted(executed + [Execution(t, issued[t])], u) {
      ExecutedAppend(executed, Execution(t, issued[t]), u);
    }
  }

  lemma ReplyKeepsExecuted(c: Codec, s: Link, response: Response, survives: bool)
    requires Inv(c, s) && Lawful(c) && Serving(s) && Complete(s.conns[s.serving].got)
    ensures ExecutedOk(Step(c, s, WorkerReply(response, survives)))
    ensures ResultsOk(Step(c, s, WorkerReply(response, survives)))
  {
    CompleteFrameIsRequest(c, s);
    var r := Step(c, s, WorkerReply(response, survives));
    var t := s.conns[s.serving].ticket.value;
    forall i | 0 <= i < |s.executed| ensures s.executed[i].ticket < t {
      assert !Answered(s.answers, s.conns[s.serving].ticket);
    }
    OneMoreExecuted(s.issued, s.executed, s.answers.Keys, t);
    assert r.answers.Keys == s.answers.Keys + {t};
    ReplyKeepsAhead(c, s, response, survives);
  }

  lemma ReplyKeepsAhead(c: Codec, s: Link, response: Response, survives: bool)
    requires Inv(c, s) && Lawful(c) && Serving(s) && Complete(s.conns[s.serving].got)
    ensures OpenAhead(Step(c, s, WorkerReply(response, survives)))
  {
    CompleteFrameIsRequest(c, s);
    var r := Step(c, s, WorkerReply(response, survives));
    var t := s.conns[s.serving].ticket.value;
    forall i, k | 0 <= i < |r.executed| && r.serving <= k < |r.conns| && !Answered(r.answers, r.conns[k].ticket)
      ensures r.executed[i].ticket < r.conns[k].ticket.value
    {
      assert k != s.serving && r.conns[k] == s.conns[k] && !Answered(s.answers, s.conns[k].ticket);
      assert i == |s.executed| ==> r.executed[i].ticket == t;
    }
  }

  lemma ReplyKeepsConnections(c: Codec, s: Link, response: Response, survives: bool)
    requires Inv(c, s) && Lawful(c) && Serving(s) && Complete(s.conns[s.serving].got)
    ensures AllUpstreamOk(c, Step(c, s, WorkerReply(response, survives)))
    ensures CurrentOk(c, Step(c, s, WorkerReply(response, survives)))
  {
    CompleteFrameIsRequest(c, s);
    var r := Step(c, s, WorkerReply(response, survives));
    var k, t := s.serving, s.conns[s.serving].ticket.value;
    forall l | 0 <= l < |r.conns| ensures UpstreamOk(c, r.issued, r.answers, r.conns[l]) {
      assert UpstreamOk(c, s.issued, s.answers, s.conns[l]);
      assert l != k && s.conns[l].ticket.Some? ==> s.conns[l].ticket != Some(t);
    }
    if s.current.Some? {
      var l := s.current.value;
      assert s.conns[l].ticket.Some? && l != k ==> s.conns[l].ticket != Some(t);
      assert DownstreamOk(c, s.phase, s.answers, s.conns[l]);
      if l == k {
        assert s.conns[k].down == [] && [] + ([] + ResponseFrame(c, response)) == ResponseFrame(c, response);
      }
    }
  }

  lemma WorkerReplyKeepsInv(c: Codec, s: Link, response: Response, survives: bool)
    requires Inv(c, s) && Lawful(c)
    ensures Inv(c, Step(c, s, WorkerReply(response, survives)))
  {
    if Serving(s) && Complete(s.conns[s.serving].got) {
      CompleteFrameIsRequest(c, s);
      ReplyKeepsExecuted(c, s, response, survives);
      ReplyKeepsConnections(c, s, response, survives);
      var r := Step(c, s, WorkerReply(response, survives));
      assert forall l | 0 <= l < |s.conns| :: r.conns[l].ticket == s.conns[l].ticket;
      assert TicketsOk(r);
    }
  }

  lemma WorkerCloseKeepsInv(c: Codec, s: Link)
    requires Inv(c, s)
    ensures Inv(c, Step(c, s, WorkerClose))
  {
    if Serving(s) && Step(c, s, WorkerClose) != s {
      var r := Step(c, s, WorkerClose);
      assert UpstreamOk(c, s.issued, s.answers, s.conns[s.serving]);
      BytesMove(c, s, r, s.serving);
    }
  }

  lemma DropKeepsInv(c: Codec, s: Link, k: nat, keepUp: nat, keepDown: nat)
    requires Inv(c, s)
    ensures Inv(c, Step(c, s, Drop(k, keepUp, keepDown)))
  {
    if k < |s.conns| {
      var conn := s.conns[k];
      var r := Step(c, s, Drop(k, keepUp, keepDown));
      assert UpstreamOk(c, s.issued, s.answers, conn);
      assert conn.up == [] ==> r.conns[k].up == [];
      assert r.conns[k].got + r.conns[k].up <= conn.got + conn.up;
      BytesMove(c, s, r, k);
      if s.current == Some(k) {
        assert DownstreamOk(c, s.phase, s.answers, conn);
        if s.phase.Awaiting? {
          assert s.phase.received + r.conns[k].down <= s.phase.received + conn.down;
        }
      }
    }
  }

  lemma StepKeepsInv(c: Codec, s: Link, a: Action)
    requires Inv(c, s) && Lawful(c)
    ensures Inv(c, Step(c, s, a))
  {
    match a
    case Acquire(request) => AcquireKeepsInv(c, s, request);
    case Dial(reached) => DialKeepsInv(c, s, reached);
    case Send => SendKeepsInv(c, s);
    case ClientRead(n) => ClientReadKeepsInv(c, s, n);
    case ClientReturn => ClientReturnKeepsInv(c, s);
    case ClientFault =>
      if !s.phase.Free? && HasConnection(s) {
        CloseKeepsInv(c, s, Disconnected);
      }
    case WorkerRead(n) => WorkerReadKeepsInv(c, s, n);
    case WorkerReply(response, survives) => WorkerReplyKeepsInv(c, s, response, survives);
    case WorkerClose => WorkerCloseKeepsInv(c, s);
    case Drop(k, keepUp, keepDown) => DropKeepsInv(c, s, k, keepUp, keepDown);
  }

  lemma {:induction false} RunKeepsInv(c: Codec, s: Link, actions: seq<Action>)
    requires Inv(c, s) && Lawful(c)
    ensures Inv(c, Run(c, s, actions))
    decreases |actions|
  {
    if |actions| > 0 {
      StepKeepsInv(c, s, actions[0]);
      RunKeepsInv(c, Step(c, s, actions[0]), actions[1..]);
    }
  }

  // ---------------------------------------------------------------- the theorems

  /** With any number of callers and connections dropping at any byte: a request that returns a response
      returns the worker's answer to that very request; the backend executes requests in lock order, each
      at most once, and as they were issued; no ticket is answered without having been executed. */
  lemma {:induction false} EachRequestGetsItsOwnAnswer(c: Codec, actions: seq<Action>)
    requires Lawful(c)
    ensures var s := Run(c, START, actions);
            && (forall t | t in s.results && s.results[t].Ok? ::
                  t in s.answers && s.results[t].value == s.answers[t])
            && (forall i | 0 <= i < |s.executed| ::
                  && s.executed[i].ticket < |s.issued|
                  && s.executed[i].request == s.issued[s.executed[i].ticket])
            && (forall i, j | 0 <= i < j < |s.executed| :: s.executed[i].ticket < s.executed[j].ticket)
            && (forall t | t in s.answers :: WasExecuted(s.executed, t))
  {
    RunKeepsInv(c, START, actions);
  }

  /** When the lock is free an open connection is clean: nothing of an earlier exchange is in flight in
      either direction or left in the worker's buffer. */
  lemma {:induction false} IdleConnectionIsClean(c: Codec, actions: seq<Action>)
    requires Lawful(c)
    ensures var s := Run(c, START, actions);
            s.current.Some? && !s.phase.Awaiting? ==>
              && s.current.value < |s.conns|
              && var conn := s.conns[s.current.value];
                 conn.up == [] && conn.got == [] && conn.down == []
  {
    RunKeepsInv(c, START, actions);
    var s := Run(c, START, actions);
    if s.current.Some? && !s.phase.Awaiting? {
      assert UpstreamOk(c, s.issued, s.answers, s.conns[s.current.value]);
    }
  }
}
