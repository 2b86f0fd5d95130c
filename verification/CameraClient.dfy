/**
 `CameraWorkerClient` with its `_reader`/`_writer` pair as one optional socket that is opened lazily,
 reused, and given up after any error in the middle of an exchange.
 */
module CameraClients {
  import opened Results
  import opened Framing
  import opened CameraLink

  /** What `_request` makes of the bytes that arrive before the connection ends. */
  function FirstFrame(stream: Bytes): Result<Bytes, Failure> {
    if |stream| < 4 then Err(Disconnected)
    else
      var length := ReadFrameLength(stream[..4]);
      if length.Err? then Err(FrameOversized)
      else if |stream| - 4 < length.value then Err(Disconnected)
      else Ok(stream[4..4 + length.value])
  }

  /** A cut-off answer is never taken for one: the client accepts a prefix of the worker's stream exactly
      when it holds the whole frame, and then reads the payload the worker sent. */
  lemma CutAnswerRefused(payload: Bytes, later: Bytes, cut: nat)
    requires Fits(payload) && cut <= |FrameBytes(payload) + later|
    ensures FirstFrame((FrameBytes(payload) + later)[..cut])
         == if cut >= |FrameBytes(payload)| then Ok(payload) else Err(Disconnected)
  {
    var stream := (FrameBytes(payload) + later)[..cut];
    if cut >= |FrameBytes(payload)| {
      var rest := later[..cut - |FrameBytes(payload)|];
      assert stream == FrameBytes(payload) + rest;
      FrameRecognised(payload, rest);
    } else if cut >= 4 {
      assert stream == FrameBytes(payload)[..cut];
      PrefixIsWhole(payload, stream);
    }
  }

  /** An answer that announces too much is refused as soon as its header is there. */
  lemma OversizedAnswerRefused(n: nat, later: Bytes)
    requires 67_108_864 < n < 0x1_0000_0000
    ensures FirstFrame(ToBigEndian(n) + later) == Err(FrameOversized)
  {
    LengthLimit(n);
    assert (ToBigEndian(n) + later)[..4] == ToBigEndian(n);
  }

  class CameraWorkerClient {
    var wire: Option<Socket>

    constructor ()
      ensures wire.None?
    {
      wire := None;
    }

    /** `open()`; `dialled` is the connection `open_connection` yields, None when it raises OSError. */
    method Open(dialled: Option<Socket>) returns (open: bool)
      modifies this
      ensures wire == if old(wire).Some? then old(wire) else dialled
      ensures open <==> wire.Some?
    {
      if wire.None? {
        wire := dialled;
      }
      open := wire.Some?;
    }

    method Close()
      modifies this
      ensures wire.None?
    {
      wire := None;
    }

    /** `_request` while the lock is held; `writeFails` when write or drain raises OSError. */
    method Request(payload: Bytes, dialled: Option<Socket>, writeFails: bool) returns (r: Result<Bytes, Failure>)
      requires Framable(payload)
      modifies this, if wire.Some? then {wire.value} else {}, if dialled.Some? then {dialled.value} else {}
      ensures old(wire).None? && dialled.None? ==> r == Err(Disconnected)
      ensures old(wire).Some? || dialled.Some? ==>
                var w := if old(wire).Some? then old(wire).value else dialled.value;
                && (writeFails ==> r == Err(Disconnected))
                && (!writeFails ==>
                      && r == FirstFrame(old(w.pending))
                      && w.sent == old(w.sent) + FrameBytes(payload))
                && (r.Ok? ==> wire == Some(w) && w.pending == old(w.pending)[4 + |r.value|..])
      ensures r.Err? ==> wire.None?
    {
      var open := Open(dialled);
      if !open {
        return Err(Disconnected);
      }
      var w := wire.value;
      if writeFails {
        Close();
        return Err(Disconnected);
      }
      ghost var stream := w.pending;
      w.sent := w.sent + FrameBytes(payload);
      var header := ReadExact(w, LENGTH_PREFIX_BYTES);
      if header.None? {
        Close();
        return Err(Disconnected);
      }
      var length := ReadFrameLength(header.value);
      if length.Err? {
        Close();
        return Err(FrameOversized);
      }
      var answer := ReadExact(w, length.value);
      if answer.None? {
        Close();
        return Err(Disconnected);
      }
      assert answer.value == stream[4..4 + length.value];
      r := Ok(answer.value);
    }
  }
}
