/**
 A codec that satisfies the law CameraLink asks of one: messages as lists of numbers, numbers in unary.  The
 program's own codec is msgpack; this one only shows that the law can be met for all messages.
 */
module CameraCodec {
  import opened Results
  import opened Framing
  import opened CameraLink

  function Unary(n: nat): (r: Bytes)
    ensures |r| > 0
  {
    if n == 0 then [0] else [1] + Unary(n - 1)
  }

  function Write(numbers: seq<nat>): (r: Bytes)
    ensures |numbers| > 0 ==> |r| > 0
  {
    if |numbers| == 0 then [] else Unary(numbers[0]) + Write(numbers[1..])
  }

  lemma {:induction false} UnaryIsPrefixFree(m: nat, n: nat, s: Bytes, t: Bytes)
    requires Unary(m) + s == Unary(n) + t
    ensures m == n && s == t
  {
    var u, v := Unary(m) + s, Unary(n) + t;
    assert u[0] == Unary(m)[0] && v[0] == Unary(n)[0];
    if m == 0 {
      assert u[1..] == s && v[1..] == t;
    } else {
      assert u[1..] == Unary(m - 1) + s && v[1..] == Unary(n - 1) + t;
      UnaryIsPrefixFree(m - 1, n - 1, s, t);
    }
  }

  lemma {:induction false} WriteIsInjective(a: seq<nat>, b: seq<nat>)
    requires Write(a) == Write(b)
    ensures a == b
    decreases |a|
  {
    if |a| > 0 && |b| > 0 {
      UnaryIsPrefixFree(a[0], b[0], Write(a[1..]), Write(b[1..]));
      WriteIsInjective(a[1..], b[1..]);
      assert a == [a[0]] + a[1..] && b == [b[0]] + b[1..];
    }
  }

  // ---------------------------------------------------------------- messages as numbers

  function Codes(s: string): (r: seq<nat>)
    ensures |r| == |s|
    ensures forall i | 0 <= i < |s| :: r[i] == s[i] as nat
  {
    seq(|s|, i requires 0 <= i < |s| => s[i] as nat)
  }

  function Numbers(data: Bytes): (r: seq<nat>)
    ensures |r| == |data|
    ensures forall i | 0 <= i < |data| :: r[i] == data[i]
  {
    seq(|data|, i requires 0 <= i < |data| => data[i] as nat)
  }

  function Sign(n: int): nat { if n < 0 then 1 else 0 }

  function Size(n: int): nat { if n < 0 then -n else n }

  function RequestNumbers(r: Request): seq<nat> {
    match r
    case Connect => [0]
    case Disconnect => [1]
    case Reconnect => [2]
    case GetStatus => [3]
    case TriggerAutofocus => [4]
    case TriggerCapture => [5]
    case DownloadPreview(id) => [6] + Codes(id)
    case DownloadFull(id) => [7] + Codes(id)
  }

  function ResponseNumbers(r: Response): seq<nat> {
    match r
    case Done => [0]
    case StatusResult(connected) => [1, if connected then 1 else 0]
    case CaptureResult(id) => [2] + Codes(id)
    case ImageResult(kind, data, w, h) =>
      [3, Sign(w), Size(w), Sign(h), Size(h), |kind|] + (Codes(kind) + Numbers(data))
    case NoPreview => [4]
    case ErrorResult(errorType, message) => [5, |errorType|] + (Codes(errorType) + Codes(message))
  }

  lemma CodesAreInjective(s: string, t: string)
    requires Codes(s) == Codes(t)
    ensures s == t
  {
    forall i | 0 <= i < |s| ensures s[i] == t[i] {
      assert Codes(s)[i] == Codes(t)[i];
    }
  }

  lemma NumbersAreInjective(s: Bytes, t: Bytes)
    requires Numbers(s) == Numbers(t)
    ensures s == t
  {
    forall i | 0 <= i < |s| ensures s[i] == t[i] {
      assert Numbers(s)[i] == Numbers(t)[i];
    }
  }

  lemma RequestNumbersAreInjective(r: Request, q: Request)
    requires RequestNumbers(r) == RequestNumbers(q)
    ensures r == q
  {
    var m, n := RequestNumbers(r), RequestNumbers(q);
    assert m[0] == n[0];
    if m[0] >= 6 {
      assert m[1..] == Codes(r.captureId) && n[1..] == Codes(q.captureId);
      CodesAreInjective(r.captureId, q.captureId);
    }
  }

  lemma SplitAgrees<T>(a: seq<T>, b: seq<T>, c: seq<T>, d: seq<T>)
    requires a + b == c + d && |a| == |c|
    ensures a == c && b == d
  {
    assert a == (a + b)[..|a|] && c == (c + d)[..|a|];
    assert b == (a + b)[|a|..] && d == (c + d)[|a|..];
  }

  lemma ImageNumbersAreInjective(r: Response, q: Response)
    requires r.ImageResult? && q.ImageResult? && ResponseNumbers(r) == ResponseNumbers(q)
    ensures r == q
  {
    var a := [3, Sign(r.width), Size(r.width), Sign(r.height), Size(r.height), |r.kind|];
    var c := [3, Sign(q.width), Size(q.width), Sign(q.height), Size(q.height), |q.kind|];
    SplitAgrees(a, Codes(r.kind) + Numbers(r.data), c, Codes(q.kind) + Numbers(q.data));
    assert a[1] == c[1] && a[2] == c[2] && a[3] == c[3] && a[4] == c[4] && a[5] == c[5];
    SplitAgrees(Codes(r.kind), Numbers(r.data), Codes(q.kind), Numbers(q.data));
    CodesAreInjective(r.kind, q.kind);
    NumbersAreInjective(r.data, q.data);
  }

  lemma ErrorNumbersAreInjective(r: Response, q: Response)
    requires r.ErrorResult? && q.ErrorResult? && ResponseNumbers(r) == ResponseNumbers(q)
    ensures r == q
  {
    var a, c := [5, |r.errorType|], [5, |q.errorType|];
    SplitAgrees(a, Codes(r.errorType) + Codes(r.message), c, Codes(q.errorType) + Codes(q.message));
    assert a[1] == c[1];
    SplitAgrees(Codes(r.errorType), Codes(r.message), Codes(q.errorType), Codes(q.message));
    CodesAreInjective(r.errorType, q.errorType);
    CodesAreInjective(r.message, q.message);
  }

  lemma ResponseNumbersAreInjective(r: Response, q: Response)
    requires ResponseNumbers(r) == ResponseNumbers(q)
    ensures r == q
  {
    var m, n := ResponseNumbers(r), ResponseNumbers(q);
    assert m[0] == n[0];
    match r
    case Done => assert q.Done?;
    case StatusResult(_) => assert q.StatusResult? && m[1] == n[1];
    case CaptureResult(_) =>
      assert q.CaptureResult? && m[1..] == Codes(r.captureId) && n[1..] == Codes(q.captureId);
      CodesAreInjective(r.captureId, q.captureId);
    case ImageResult(_, _, _, _) => ImageNumbersAreInjective(r, q);
    case NoPreview => assert q.NoPreview?;
    case ErrorResult(_, _) => ErrorNumbersAreInjective(r, q);
  }

  // ---------------------------------------------------------------- the codec

  function EncodeRequest(r: Request): Bytes { Write(RequestNumbers(r)) }

  function EncodeResponse(r: Response): Bytes { Write(ResponseNumbers(r)) }

  ghost function DecodeRequest(data: Bytes): Option<Request> {
    if exists r: Request :: EncodeRequest(r) == data then
      var r: Request :| EncodeRequest(r) == data;
      Some(r)
    else None
  }

  ghost function DecodeResponse(data: Bytes): Option<Response> {
    if exists r: Response :: EncodeResponse(r) == data then
      var r: Response :| EncodeResponse(r) == data;
      Some(r)
    else None
  }

  /** The law can be met: encoding loses nothing, so what was encoded can be decoded. */
  lemma LawfulCodecExists() returns (c: Codec)
    ensures Lawful(c)
  {
    c := Codec(EncodeRequest, DecodeRequest, EncodeResponse, DecodeResponse);
    forall r: Request ensures c.decodeRequest(c.encodeRequest(r)) == Some(r) {
      var q := DecodeRequest(EncodeRequest(r)).value;
      WriteIsInjective(RequestNumbers(q), RequestNumbers(r));
      RequestNumbersAreInjective(q, r);
    }
    forall r: Response ensures c.decodeResponse(c.encodeResponse(r)) == Some(r) {
      var q := DecodeResponse(EncodeResponse(r)).value;
      WriteIsInjective(ResponseNumbers(q), ResponseNumbers(r));
      ResponseNumbersAreInjective(q, r);
    }
  }
}
