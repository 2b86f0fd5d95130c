/**
 The wire format of camera/messages.py: a payload behind its length in four big-endian bytes.  The read
 loop of the worker over a socket that hands bytes out in arbitrary chunks yields exactly the complete
 frames of the stream.
 */
module Framing {
  import opened Results

  type Byte = b: int | 0 <= b < 256

  type Bytes = seq<Byte>

  const LENGTH_PREFIX_BYTES: nat := 4
  const MAX_FRAME_BYTES: nat := 64 * 1024 * 1024
  const RECV_CHUNK_BYTES: nat := 65536

  datatype FrameError = FrameTooLarge(length: nat)

  // ---------------------------------------------------------------- the format

  function ToBigEndian(n: nat): (header: Bytes)
    requires n < 0x1_0000_0000
    ensures |header| == LENGTH_PREFIX_BYTES
  {
    [n / 0x100 / 0x100 / 0x100, n / 0x100 / 0x100 % 0x100, n / 0x100 % 0x100, n % 0x100]
  }

  function FromBigEndian(header: Bytes): nat
    requires |header| == LENGTH_PREFIX_BYTES
  {
    var high: nat := header[0] as int * 0x100 + header[1];
    var upper: nat := high * 0x100 + header[2];
    upper * 0x100 + header[3]
  }

  /** `int.to_bytes` raises an OverflowError when the length needs a fifth byte. */
  function Frame(payload: Bytes): Option<Bytes> {
    if |payload| >= 0x1_0000_0000 then None else Some(ToBigEndian(|payload|) + payload)
  }

  function ReadFrameLength(header: Bytes): Result<nat, FrameError>
    requires |header| == LENGTH_PREFIX_BYTES
  {
    var length := FromBigEndian(header);
    if length > MAX_FRAME_BYTES then Err(FrameTooLarge(length)) else Ok(length)
  }

  /** Headers and lengths stand for each other. */
  lemma BigEndianRoundTrip(n: nat, header: Bytes)
    requires n < 0x1_0000_0000 && |header| == LENGTH_PREFIX_BYTES
    ensures FromBigEndian(ToBigEndian(n)) == n
    ensures FromBigEndian(header) < 0x1_0000_0000 && ToBigEndian(FromBigEndian(header)) == header
  {
    var high: nat := header[0] as int * 0x100 + header[1];
    var upper: nat := high * 0x100 + header[2];
    var all: nat := upper * 0x100 + header[3];
    assert all / 0x100 == upper && all % 0x100 == header[3];
    assert upper / 0x100 == high && upper % 0x100 == header[2];
    assert high / 0x100 == header[0] && high % 0x100 == header[1];
    assert ToBigEndian(all) == [header[0], header[1], header[2], header[3]];
  }

  /** Headers compare, byte by byte from the first, as the lengths they stand for: the first byte weighs most. */
  predicate HeaderLess(a: Bytes, b: Bytes)
    requires |a| == |b| == LENGTH_PREFIX_BYTES
  {
    || a[0] < b[0]
    || (a[0] == b[0] && (a[1] < b[1] || (a[1] == b[1] && (a[2] < b[2] || (a[2] == b[2] && a[3] < b[3])))))
  }

  lemma HeaderOrder(a: Bytes, b: Bytes)
    requires |a| == |b| == LENGTH_PREFIX_BYTES
    ensures FromBigEndian(a) < FromBigEndian(b) <==> HeaderLess(a, b)
  {
    assert FromBigEndian(a) ==
      0x100_0000 * (a[0] as int) + 0x1_0000 * (a[1] as int) + 0x100 * (a[2] as int) + a[3] as int;
    assert FromBigEndian(b) ==
      0x100_0000 * (b[0] as int) + 0x1_0000 * (b[1] as int) + 0x100 * (b[2] as int) + b[3] as int;
  }

  /** A length is accepted up to 64 MiB, and a longer one is refused with its length. */
  lemma LengthLimit(n: nat)
    requires n < 0x1_0000_0000
    ensures ReadFrameLength(ToBigEndian(n)) == if n <= 67_108_864 then Ok(n) else Err(FrameTooLarge(n))
  {
    BigEndianRoundTrip(n, ToBigEndian(n));
  }

  // ---------------------------------------------------------------- streams

  datatype Ending = PeerClosed | Oversized

  /** What a reader makes of a stream that ends. */
  function ReadAll(stream: Bytes): (seq<Bytes>, Ending)
    decreases |stream|
  {
    if |stream| < LENGTH_PREFIX_BYTES then ([], PeerClosed)
    else
      var length := ReadFrameLength(stream[..4]);
      if length.Err? then ([], Oversized)
      else if |stream| - 4 < length.value then ([], PeerClosed)
      else
        var (payloads, ending) := ReadAll(stream[4 + length.value..]);
        ([stream[4..4 + length.value]] + payloads, ending)
  }

  predicate Fits(payload: Bytes) {
    |payload| <= MAX_FRAME_BYTES
  }

  predicate Framable(payload: Bytes) {
    |payload| < 0x1_0000_0000
  }

  function FrameBytes(payload: Bytes): (frame: Bytes)
    requires Framable(payload)
    ensures |frame| == 4 + |payload|
  {
    ToBigEndian(|payload|) + payload
  }

  function Frames(payloads: seq<Bytes>): Bytes
    requires forall k | 0 <= k < |payloads| :: Fits(payloads[k])
  {
    if |payloads| == 0 then []
    else
      assert Fits(payloads[0]);
      FrameBytes(payloads[0]) + Frames(payloads[1..])
  }

  /** A frame is recognised by its bytes alone, whatever follows it. */
  lemma FrameRecognised(payload: Bytes, rest: Bytes)
    requires Fits(payload)
    ensures Frame(payload) == Some(FrameBytes(payload))
    ensures var stream := FrameBytes(payload) + rest;
            && ReadFrameLength(stream[..4]) == Ok(|payload|)
            && stream[4..4 + |payload|] == payload && stream[4 + |payload|..] == rest
  {
    var stream := FrameBytes(payload) + rest;
    BigEndianRoundTrip(|payload|, stream[..4]);
    assert stream[..4] == ToBigEndian(|payload|);
  }

  /** A prefix of a frame that is as long as its own header announces is the whole frame. */
  lemma PrefixIsWhole(payload: Bytes, got: Bytes)
    requires Framable(payload) && 4 <= |got| && got <= FrameBytes(payload)
    ensures FromBigEndian(got[..4]) == |payload|
    ensures |got| == 4 + |payload| ==> got == FrameBytes(payload) && got[4..] == payload
  {
    BigEndianRoundTrip(|payload|, got[..4]);
    assert got[..4] == FrameBytes(payload)[..4] == ToBigEndian(|payload|);
  }

  /** The payloads before `whole` are complete within `cut` bytes, and the next one is not. */
  ghost predicate CompleteBefore(payloads: seq<Bytes>, cut: nat, whole: nat)
    requires forall k | 0 <= k < |payloads| :: Fits(payloads[k])
  {
    && whole <= |payloads|
    && |Frames(payloads[..whole])| <= cut
    && (whole < |payloads| ==> cut < |Frames(payloads[..whole + 1])|)
  }

  lemma CutInFirstFrame(payloads: seq<Bytes>, cut: nat)
    requires forall k | 0 <= k < |payloads| :: Fits(payloads[k])
    requires |payloads| > 0 && Fits(payloads[0]) && cut < |FrameBytes(payloads[0])|
    ensures cut <= |Frames(payloads)| && ReadAll(Frames(payloads)[..cut]) == ([], PeerClosed)
    ensures CompleteBefore(payloads, cut, 0)
  {
    var frame, stream := FrameBytes(payloads[0]), Frames(payloads)[..cut];
    assert payloads[..1] == [payloads[0]];
    assert Frames([payloads[0]]) == frame + Frames([]) == frame;
    assert stream == frame[..cut];
    if cut >= 4 {
      PrefixIsWhole(payloads[0], stream);
    }
  }

  lemma CompleteLater(payloads: seq<Bytes>, cut: nat, whole: nat)
    requires forall k | 0 <= k < |payloads| :: Fits(payloads[k])
    requires |payloads| > 0 && Fits(payloads[0]) && |FrameBytes(payloads[0])| <= cut
    requires CompleteBefore(payloads[1..], cut - |FrameBytes(payloads[0])|, whole)
    ensures CompleteBefore(payloads, cut, whole + 1)
  {
    FramesOfPrefix(payloads, whole + 1);
    if whole + 1 < |payloads| {
      FramesOfPrefix(payloads, whole + 2);
    }
  }

  lemma ReadLater(payloads: seq<Bytes>, cut: nat, whole: nat)
    requires forall k | 0 <= k < |payloads| :: Fits(payloads[k])
    requires 0 <= whole < |payloads| && Fits(payloads[0]) && |FrameBytes(payloads[0])| <= cut <= |Frames(payloads)|
    requires ReadAll(Frames(payloads[1..])[..cut - |FrameBytes(payloads[0])|]) == (payloads[1..][..whole], PeerClosed)
    ensures ReadAll(Frames(payloads)[..cut]) == (payloads[..whole + 1], PeerClosed)
  {
    var frame, rest := FrameBytes(payloads[0]), Frames(payloads[1..]);
    ReadAllCons(payloads[0], rest[..cut - |frame|]);
    CutConcat(frame, rest, cut);
    FirstAndRest(payloads, whole);
  }

  lemma CutConcat(frame: Bytes, rest: Bytes, cut: nat)
    requires |frame| <= cut <= |frame + rest|
    ensures (frame + rest)[..cut] == frame + rest[..cut - |frame|]
  {
  }

  lemma FirstAndRest(payloads: seq<Bytes>, whole: nat)
    requires whole < |payloads|
    ensures [payloads[0]] + payloads[1..][..whole] == payloads[..whole + 1]
  {
  }

  /** The reader takes the first frame off and goes on with the rest. */
  lemma ReadAllCons(payload: Bytes, rest: Bytes)
    requires Fits(payload)
    ensures ReadAll(FrameBytes(payload) + rest) == ([payload] + ReadAll(rest).0, ReadAll(rest).1)
  {
    FrameRecognised(payload, rest);
  }

  /** A stream of frames cut at any byte is read as exactly the frames that are complete before the cut. */
  lemma {:induction false} CutStreamYieldsCompleteFrames(payloads: seq<Bytes>, cut: nat) returns (whole: nat)
    requires forall k | 0 <= k < |payloads| :: Fits(payloads[k])
    requires cut <= |Frames(payloads)|
    ensures CompleteBefore(payloads, cut, whole)
    ensures ReadAll(Frames(payloads)[..cut]) == (payloads[..whole], PeerClosed)
    decreases |payloads|
  {
    if |payloads| == 0 {
      whole := 0;
    } else if cut < |FrameBytes(payloads[0])| {
      CutInFirstFrame(payloads, cut);
      whole := 0;
    } else {
      var k := CutStreamYieldsCompleteFrames(payloads[1..], cut - |FrameBytes(payloads[0])|);
      CompleteLater(payloads, cut, k);
      ReadLater(payloads, cut, k);
      whole := k + 1;
    }
  }

  lemma FramesOfPrefix(payloads: seq<Bytes>, n: nat)
    requires forall k | 0 <= k < |payloads| :: Fits(payloads[k])
    requires 1 <= n <= |payloads|
    ensures |Frames(payloads[..n])| == |FrameBytes(payloads[0])| + |Frames(payloads[1..][..n - 1])|
  {
    assert payloads[..n][1..] == payloads[1..][..n - 1];
  }

  /** An uncut stream yields the payloads themselves. */
  lemma {:induction false} WholeStreamYieldsPayloads(payloads: seq<Bytes>)
    requires forall k | 0 <= k < |payloads| :: Fits(payloads[k])
    ensures ReadAll(Frames(payloads)) == (payloads, PeerClosed)
  {
    var whole := CutStreamYieldsCompleteFrames(payloads, |Frames(payloads)|);
    assert Frames(payloads)[..|Frames(payloads)|] == Frames(payloads);
    if whole < |payloads| {
      FramesGrow(payloads, whole + 1);
    }
    assert payloads[..|payloads|] == payloads;
  }

  /** A header that announces too much ends the reading there, with all that came before it delivered. */
  lemma {:induction false} OversizedEndsReading(payloads: seq<Bytes>, n: nat, rest: Bytes)
    requires forall k | 0 <= k < |payloads| :: Fits(payloads[k])
    requires 67_108_864 < n < 0x1_0000_0000
    ensures ReadAll(Frames(payloads) + (ToBigEndian(n) + rest)) == (payloads, Oversized)
    decreases |payloads|
  {
    var tail := ToBigEndian(n) + rest;
    if |payloads| == 0 {
      OversizedAtOnce(n, rest);
      assert [] + tail == tail;
    } else {
      var first, later := FrameBytes(payloads[0]), Frames(payloads[1..]);
      OversizedEndsReading(payloads[1..], n, rest);
      ReadAllCons(payloads[0], later + tail);
      assert first + later + tail == first + (later + tail);
      assert [payloads[0]] + payloads[1..] == payloads;
    }
  }

  lemma OversizedAtOnce(n: nat, rest: Bytes)
    requires 67_108_864 < n < 0x1_0000_0000
    ensures ReadAll(ToBigEndian(n) + rest) == ([], Oversized)
  {
    LengthLimit(n);
    assert (ToBigEndian(n) + rest)[..4] == ToBigEndian(n);
  }

  lemma {:induction false} FramesGrow(payloads: seq<Bytes>, n: nat)
    requires forall k | 0 <= k < |payloads| :: Fits(payloads[k])
    requires n <= |payloads|
    ensures |Frames(payloads[..n])| <= |Frames(payloads)|
  {
    if n > 0 {
      FramesOfPrefix(payloads, n);
      FramesGrow(payloads[1..], n - 1);
    }
  }

  // ---------------------------------------------------------------- the socket and the read loop

  /** One end of a connection: what will still arrive before the peer's close, how the network splits it
      (given how much is left), and what was sent. */
  class Socket {
    var pending: Bytes
    var sent: Bytes
    const split: nat -> nat

    constructor (stream: Bytes, split: nat -> nat)
      ensures pending == stream && sent == []
    {
      pending, sent := stream, [];
      this.split := split;
    }

    method Recv(max: nat) returns (chunk: Bytes)
      requires max > 0
      modifies this`pending
      ensures old(pending) == chunk + pending
      ensures |chunk| <= max
      ensures chunk == [] <==> old(pending) == []
    {
      var size := if split(|pending|) == 0 then 1 else split(|pending|);
      if size > max {
        size := max;
      }
      if size > |pending| {
        size := |pending|;
      }
      chunk, pending := pending[..size], pending[size..];
    }
  }

  function Join(chunks: seq<Bytes>): Bytes {
    if |chunks| == 0 then [] else Join(chunks[..|chunks| - 1]) + chunks[|chunks| - 1]
  }

  /** `_read_exact`: exactly `size` bytes however they are split, or nothing if the peer closed before. */
  method ReadExact(sock: Socket, size: nat) returns (read: Option<Bytes>)
    modifies sock`pending
    ensures read.Some? <==> size <= |old(sock.pending)|
    ensures read.Some? ==> read.value == old(sock.pending)[..size] && sock.pending == old(sock.pending)[size..]
    ensures read.None? ==> sock.pending == []
  {
    var chunks: seq<Bytes> := [];
    var remaining := size;
    while remaining > 0
      invariant 0 <= remaining <= size
      invariant |Join(chunks)| == size - remaining
      invariant old(sock.pending) == Join(chunks) + sock.pending
    {
      var chunk := sock.Recv(if remaining < RECV_CHUNK_BYTES then remaining else RECV_CHUNK_BYTES);
      if |chunk| == 0 {
        return None;
      }
      assert (chunks + [chunk])[..|chunks|] == chunks;
      chunks := chunks + [chunk];
      remaining := remaining - |chunk|;
    }
    assert Join(chunks) == old(sock.pending)[..size];
    read := Some(Join(chunks));
  }

  /** The loop of `_serve_connection`, with the payloads it hands to the decoder. */
  method ServeConnection(sock: Socket) returns (payloads: seq<Bytes>, ending: Ending)
    modifies sock`pending
    ensures (payloads, ending) == ReadAll(old(sock.pending))
  {
    payloads := [];
    assert [] + ReadAll(sock.pending).0 == ReadAll(sock.pending).0;
    while true
      invariant ReadAll(old(sock.pending)) ==
                (payloads + ReadAll(sock.pending).0, ReadAll(sock.pending).1)
      decreases |sock.pending|
    {
      ghost var stream := sock.pending;
      assert payloads + [] == payloads;
      var header := ReadExact(sock, LENGTH_PREFIX_BYTES);
      if header.None? {
        return payloads, PeerClosed;
      }
      var length := ReadFrameLength(header.value);
      if length.Err? {
        return payloads, Oversized;
      }
      var payload := ReadExact(sock, length.value);
      if payload.None? {
        return payloads, PeerClosed;
      }
      assert payload.value == stream[4..4 + length.value] && sock.pending == stream[4 + length.value..];
      assert payloads + ReadAll(stream).0 == payloads + [payload.value] + ReadAll(sock.pending).0;
      payloads := payloads + [payload.value];
    }
  }
}
