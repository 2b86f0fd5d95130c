/**
 Names: every capture row has an id of its own, every announced image a file, and every upload a remote key of its
 own, so no guest's picture is delivered over another's and no QR code leads to another guest's picture.
 */
module SessionKeys {
  import opened Results
  import opened SessionProtocol
  import opened SessionSafety
  import opened SessionSharing

  // ---------------------------------------------------------------- names

  function DigitValue(c: char): nat {
    if '0' <= c <= '9' then c as nat - '0' as nat else if 'a' <= c <= 'f' then 10 + (c as nat - 'a' as nat) else 16
  }

  function HexValue(s: string): nat {
    if |s| == 0 then 0 else 16 * HexValue(s[..|s| - 1]) + DigitValue(s[|s| - 1])
  }

  /** The name of an id is the id in lower-case hexadecimal digits. */
  lemma {:induction false} HexReadsBack(id: Id)
    ensures HexValue(Hex(id)) == id
    ensures forall i | 0 <= i < |Hex(id)| :: DigitValue(Hex(id)[i]) < 16
  {
    var digits := "0123456789abcdef";
    assert forall i | 0 <= i < 16 :: DigitValue(digits[i]) == i;
    if id < 16 {
      assert Hex(id) == [digits[id]] && Hex(id)[..0] == "";
    } else {
      HexReadsBack(id / 16);
      var front, last := Hex(id / 16), digits[id % 16];
      assert Hex(id) == front + [last];
      assert (front + [last])[..|front|] == front;
    }
  }

  /** Different captures have different remote keys. */
  lemma RemoteKeysDiffer(a: Id, b: Id)
    ensures RemoteKey(a) == RemoteKey(b) <==> a == b
    ensures Hex(a) == Hex(b) <==> a == b
  {
    HexReadsBack(a);
    HexReadsBack(b);
    if RemoteKey(a) == RemoteKey(b) {
      assert |Hex(a)| == |Hex(b)|;
      assert Hex(a) == RemoteKey(a)[..|Hex(a)|] == RemoteKey(b)[..|Hex(b)|] == Hex(b);
    }
  }

  // ---------------------------------------------------------------- rows and files of any interleaving

  /** The image that an event sends the guest to is on disk. */
  predicate ImageThere(files: set<FileName>, e: Event) {
    match e
    case PreviewReady(_, id, _, _) => Preview(id) in files
    case FullImageReady(_, id) => Full(id) in files
    case _ => true
  }

  ghost predicate NamesOk(b: Booth) {
    && (forall k | 0 <= k < |b.captures| :: b.captures[k].id < b.nextId)
    && (forall k, l | 0 <= k < l < |b.captures| :: b.captures[k].id != b.captures[l].id)
    && (forall k | 0 <= k < |b.log| :: ImageThere(b.files, b.log[k]))
  }

  /** What one step may do to rows, files and events. */
  ghost predicate Grows(b: Booth, c: Booth) {
    && b.nextId <= c.nextId && b.files <= c.files
    && (c.captures == b.captures || exists row :: NewCapture(b, c, row))
    && (c.log == b.log || exists e :: NewEvent(b, c, e))
  }

  predicate NewCapture(b: Booth, c: Booth, row: CaptureRow) {
    c.captures == b.captures + [row] && row.id == b.nextId < c.nextId
  }

  predicate NewEvent(b: Booth, c: Booth, e: Event) {
    c.log == b.log + [e] && ImageThere(c.files, e)
  }

  lemma GrowingKeepsNames(b: Booth, c: Booth)
    requires NamesOk(b) && Grows(b, c)
    ensures NamesOk(c)
  {
    forall k | 0 <= k < |c.log| ensures ImageThere(c.files, c.log[k]) {
      assert k < |b.log| ==> ImageThere(b.files, b.log[k]) && c.log[k] == b.log[k];
    }
  }

  lemma TransitionGrows(b: Booth, target: SessionState, token: Option<Id>)
    ensures var t := Transition(b, target, token);
            Grows(b, if t.None? then b else t.value)
  {
    var t := Transition(b, target, token);
    if t.Some? {
      assert NewEvent(b, t.value, StateChanged(b.sessionId, target, token));
    }
  }

  lemma DeliverGrows(b: Booth, f: Frame, id: Id)
    ensures Grows(b, Deliver(b, f, id).0)
  {
    var (issued, token) := IssueToken(b.(deliverables := [id]), id);
    if Transition(issued, REVIEW, token).Some? {
      assert NewEvent(b, Deliver(b, f, id).0, StateChanged(b.sessionId, REVIEW, token));
    }
  }

  lemma NextShotGrows(b: Booth, f: Frame)
    ensures Grows(b, NextShot(b, f).0)
  {
    if f.shotIndex < f.shotCount {
      TransitionGrows(b, COUNTDOWN, None);
    } else if (!b.templated || |f.captureIds| == 1) && |f.captureIds| > 0 {
      DeliverGrows(b, f, f.captureIds[0]);
    }
  }

  lemma CallGrows(b: Booth, f: Frame, r: Reply)
    requires AtFallibleCall(f)
    ensures Grows(b, Resume(b, f, r).0)
  {
    var c := Resume(b, f, r).0;
    if r.fault.Some? {
      if !f.point.Rendering? {
        assert NewEvent(b, c, CaptureFailed(b.sessionId, r.fault.value));
      }
    } else if f.point.Triggering? {
      assert NewCapture(b, c, CaptureRow(b.nextId, b.sessionId, f.shotCount == 1));
    } else if f.point.FetchingPreview? {
      if r.hasPreview {
        assert NewEvent(b, c, PreviewReady(b.sessionId, f.current, f.shotIndex, f.shotCount));
      }
    } else if f.point.FetchingFull? {
      assert NewEvent(b, c, FullImageReady(b.sessionId, f.current));
    } else {
      assert NewCapture(b, c, CaptureRow(b.nextId, b.sessionId, true));
      assert NewEvent(b, c, FullImageReady(b.sessionId, b.nextId));
    }
  }

  lemma ResumeGrows(b: Booth, f: Frame, r: Reply)
    ensures Grows(b, Resume(b, f, r).0)
  {
    if AtFallibleCall(f) {
      CallGrows(b, f, r);
    } else if f.point.FullSent? {
      NextShotGrows(b, f.(shotIndex := f.shotIndex + 1));
    } else if f.point.CompositeSent? {
      DeliverGrows(b, f, f.current);
    } else if f.point.FailureSent? {
      TransitionGrows(b, IDLE, None);
    } else if f.point.Sleeping? || f.point.WaitingForCamera? {
      TransitionGrows(b, CAPTURING, None);
    } else if f.point.CountdownStateSent? {
      assert NewEvent(b, Resume(b, f, r).0, CountdownStarted(b.sessionId, f.shotIndex, f.shotCount));
    }
  }

  lemma StepGrows(w: World, a: Action)
    ensures Grows(w.booth, Step(w, a).booth)
  {
    var b, c := w.booth, Step(w, a).booth;
    match a
    case ArmOk(slots) =>
      if c != b {
        assert NewEvent(b, c, StateChanged(b.nextId, ARMED, None));
      }
    case ArmRaises =>
    case DismissNow => TransitionGrows(b, IDLE, None);
    case StartCapture => NextShotGrows(b, Frame(CountdownStateSent, 0, b.shotCount, [], 0));
    case Wake(k, reply) =>
      if k < |w.captures| {
        ResumeGrows(b, w.captures[k], reply);
      }
  }

  lemma {:induction false} RunKeepsNames(w: World, actions: seq<Action>)
    requires NamesOk(w.booth)
    ensures NamesOk(Run(w, actions).booth)
    decreases |actions|
  {
    if |actions| > 0 {
      StepGrows(w, actions[0]);
      GrowingKeepsNames(w.booth, Step(w, actions[0]).booth);
      RunKeepsNames(Step(w, actions[0]), actions[1..]);
    }
  }

  /** Under any interleaving, of several captures too, no two capture rows have the same id, and every image that was
      announced to the guest is on disk. */
  lemma {:induction false} ImagesAreThere(queued: bool, actions: seq<Action>)
    ensures var b := Run(Opening(queued), actions).booth;
            && (forall k, l | 0 <= k < l < |b.captures| :: b.captures[k].id != b.captures[l].id)
            && (forall k | 0 <= k < |b.log| && b.log[k].PreviewReady? :: Preview(b.log[k].captureId) in b.files)
            && (forall k | 0 <= k < |b.log| && b.log[k].FullImageReady? :: Full(b.log[k].captureId) in b.files)
  {
    RunKeepsNames(Opening(queued), actions);
    var b := Run(Opening(queued), actions).booth;
    assert forall k | 0 <= k < |b.log| :: ImageThere(b.files, b.log[k]);
  }

  // ---------------------------------------------------------------- uploads

  /** Every upload names its capture's file and key, and no capture is uploaded twice. */
  ghost predicate UploadsOk(b: Booth) {
    && (forall k | 0 <= k < |b.uploads| ::
          var id := b.uploads[k].captureId; b.uploads[k] == Upload(Full(id), RemoteKey(id), id))
    && (forall k, l | 0 <= k < l < |b.uploads| :: b.uploads[k].captureId != b.uploads[l].captureId)
  }

  lemma {:induction false} NoUploadOf(uploads: seq<Upload>, id: Id, k: nat)
    requires UploadsOf(uploads, id) == [] && k < |uploads|
    ensures uploads[k].captureId != id
  {
    if k < |uploads| - 1 {
      NoUploadOf(uploads[..|uploads| - 1], id, k);
    }
  }

  lemma DeliverKeepsUploads(b: Booth, f: Frame, id: Id)
    requires UploadsOk(b) && Undelivered(b, id)
    ensures UploadsOk(Deliver(b, f, id).0)
  {
    var c := Deliver(b, f, id).0;
    forall k | 0 <= k < |b.uploads| ensures b.uploads[k].captureId != id {
      NoUploadOf(b.uploads, id, k);
    }
    assert c.uploads == b.uploads || c.uploads == b.uploads + [Upload(Full(id), RemoteKey(id), id)];
  }

  lemma QuietUploads(b: Booth, f: Frame, r: Reply)
    requires !f.point.FullSent? && !f.point.CompositeSent?
    ensures Resume(b, f, r).0.uploads == b.uploads
  {
    if AtFallibleCall(f) {
      CallUploads(b, f, r);
    }
  }

  lemma CallUploads(b: Booth, f: Frame, r: Reply)
    requires AtFallibleCall(f)
    ensures Resume(b, f, r).0.uploads == b.uploads
  {
  }

  lemma ResumeKeepsUploads(b: Booth, f: Frame, r: Reply)
    requires UploadsOk(b) && CaptureOk(b, f)
    ensures UploadsOk(Resume(b, f, r).0)
  {
    if f.point.CompositeSent? {
      assert Taken(f)[|f.captureIds|] == f.current;
      DeliverKeepsUploads(b, f, f.current);
    } else if f.point.FullSent? {
      assert Taken(f) == f.captureIds;
      var g := f.(shotIndex := f.shotIndex + 1);
      if g.shotIndex >= g.shotCount && (!b.templated || |g.captureIds| == 1) {
        DeliverKeepsUploads(b, g, g.captureIds[0]);
      }
    } else {
      QuietUploads(b, f, r);
    }
  }

  lemma StepKeepsUploads(w: World, a: Action)
    requires SharingInv(w) && Exclusive(w, a) && UploadsOk(w.booth)
    ensures UploadsOk(Step(w, a).booth)
  {
    if a.Wake? && a.k < |w.captures| {
      if a.k == |w.captures| - 1 {
        ResumeKeepsUploads(w.booth, w.captures[a.k], a.reply);
      } else {
        assert Finished(w.captures[a.k]);
      }
    }
  }

  lemma {:induction false} RunKeepsUploads(w: World, actions: seq<Action>)
    requires SharingInv(w) && ExclusiveRun(w, actions) && UploadsOk(w.booth)
    ensures UploadsOk(Run(w, actions).booth)
    decreases |actions|
  {
    if |actions| > 0 {
      StepSharing(w, actions[0]);
      StepKeepsUploads(w, actions[0]);
      RunKeepsUploads(Step(w, actions[0]), actions[1..]);
    }
  }

  /** In every run with one capture at a time no two upload jobs have the same remote key, whether their sessions have
      rows or not: no delivered file is ever written over. */
  lemma {:induction false} RemoteKeysAreUnique(queued: bool, actions: seq<Action>, j: nat, k: nat)
    requires ExclusiveRun(Opening(queued), actions)
    requires j < k < |Run(Opening(queued), actions).booth.uploads|
    ensures var uploads := Run(Opening(queued), actions).booth.uploads;
            uploads[j].remoteKey != uploads[k].remoteKey && uploads[j].localPath != uploads[k].localPath
  {
    assert SharingInv(Opening(queued));
    RunKeepsUploads(Opening(queued), actions);
    var uploads := Run(Opening(queued), actions).booth.uploads;
    RemoteKeysDiffer(uploads[j].captureId, uploads[k].captureId);
  }

  lemma {:induction false} UploadOfListed(uploads: seq<Upload>, id: Id) returns (k: nat)
    requires UploadsOf(uploads, id) != []
    ensures k < |uploads| && uploads[k].captureId == id
  {
    k := |uploads| - 1;
    if uploads[k].captureId != id {
      k := UploadOfListed(uploads[..k], id);
    }
  }

  /** Two sessions with tokens list different captures, their pictures are uploaded under different keys, and with a
      public base URL their QR codes lead to different addresses. */
  lemma {:induction false} SessionsDoNotShareKeys(queued: bool, actions: seq<Action>, s: Id, t: Id,
                                                  base: string, host: string, token: string, other: string)
    requires ExclusiveRun(Opening(queued), actions) && s != t && base != ""
    requires HasToken(Run(Opening(queued), actions).booth, s) && HasToken(Run(Opening(queued), actions).booth, t)
    ensures var b := Run(Opening(queued), actions).booth;
            var mine, theirs := ListBySession(b.captures, s), ListBySession(b.captures, t);
            && |mine| == 1 && |theirs| == 1 && mine[0] != theirs[0]
            && RemoteKey(mine[0]) != RemoteKey(theirs[0])
            && QrTarget(base, host, token, b.captures, s) != QrTarget(base, host, other, b.captures, t)
  {
    var w := Opening(queued);
    assert SharingInv(w);
    RunSharing(w, actions);
    RunKeepsNames(w, actions);
    var b := Run(w, actions).booth;
    assert Shared(b, s) && Shared(b, t);
    var mine, theirs := ListBySession(b.captures, s)[0], ListBySession(b.captures, t)[0];
    var k := ListedRowExists(b.captures, s, mine);
    var l := ListedRowExists(b.captures, t, theirs);
    assert k != l;
    RemoteKeysDiffer(mine, theirs);
    Prefixed(RStrip(base, '/') + "/", RemoteKey(mine), RemoteKey(theirs));
    TargetIsKey(base, host, token, b.captures, s);
    TargetIsKey(base, host, other, b.captures, t);
  }

  lemma TargetIsKey(base: string, host: string, token: string, captures: seq<CaptureRow>, session: Id)
    requires base != "" && |ListBySession(captures, session)| == 1
    ensures QrTarget(base, host, token, captures, session)
         == Ok(RStrip(base, '/') + "/" + RemoteKey(ListBySession(captures, session)[0]))
  {
    var id := ListBySession(captures, session)[0];
    assert RStrip(base, '/') + "/" + Hex(id) + ".jpg" == RStrip(base, '/') + "/" + RemoteKey(id);
  }

  lemma Prefixed(p: string, a: string, b: string)
    ensures p + a == p + b <==> a == b
  {
    assert a == (p + a)[|p|..] && b == (p + b)[|p|..];
  }

  /** The picture of a session with a token is uploaded by one job, from its own file and under its own key. */
  lemma {:induction false} SharedPictureIsUploadedOnce(queued: bool, actions: seq<Action>, s: Id) returns (k: nat)
    requires ExclusiveRun(Opening(queued), actions)
    requires HasToken(Run(Opening(queued), actions).booth, s)
    ensures var b := Run(Opening(queued), actions).booth;
            |ListBySession(b.captures, s)| == 1 &&
            var id := ListBySession(b.captures, s)[0];
            && k < |b.uploads| && b.uploads[k] == Upload(Full(id), RemoteKey(id), id)
            && forall j | 0 <= j < |b.uploads| && j != k :: b.uploads[j].captureId != id
  {
    assert SharingInv(Opening(queued));
    RunSharing(Opening(queued), actions);
    RunKeepsUploads(Opening(queued), actions);
    var b := Run(Opening(queued), actions).booth;
    assert Shared(b, s);
    k := UploadOfListed(b.uploads, ListBySession(b.captures, s)[0]);
  }

  // ---------------------------------------------------------------- addresses

  function Times(c: char, n: nat): string {
    if n == 0 then "" else Times(c, n - 1) + [c]
  }

  lemma OneMoreTime(s: string, left: string, c: char, m: nat)
    requires |s| > 0 && s[|s| - 1] == c && s[..|s| - 1] == left + Times(c, m)
    ensures s == left + Times(c, m + 1)
  {
    assert s == s[..|s| - 1] + [c];
    assert left + Times(c, m) + [c] == left + (Times(c, m) + [c]);
  }

  /** `rstrip`: what is left does not end in the character, and only that character was taken off the end. */
  lemma {:induction false} RStripIs(s: string, c: char) returns (n: nat)
    ensures s == RStrip(s, c) + Times(c, n)
    ensures RStrip(s, c) == "" || RStrip(s, c)[|RStrip(s, c)| - 1] != c
  {
    if |s| > 0 && s[|s| - 1] == c {
      var m := RStripIs(s[..|s| - 1], c);
      n := m + 1;
      OneMoreTime(s, RStrip(s, c), c, m);
    } else {
      n := 0;
      assert s + "" == s;
    }
  }

  /** Without a public base URL the QR code leads to this program's own share page of the token, whatever is listed. */
  lemma QrWithoutBase(host: string, token: string, captures: seq<CaptureRow>, session: Id)
    ensures QrTarget("", host, token, captures, session) == Ok(RStrip(host, '/') + "/s/" + token)
  {
  }

  /** With one, a session that lists nothing is a 404, and only such a one. */
  lemma QrMissing(base: string, host: string, token: string, captures: seq<CaptureRow>, session: Id)
    requires base != ""
    ensures QrTarget(base, host, token, captures, session).Err? <==>
              forall k | 0 <= k < |captures| :: !(captures[k].session == session && captures[k].deliverable)
  {
    ListIsComplete(captures, session);
  }

  /** What is listed for a session are its deliverable rows, all of them. */
  lemma {:induction false} ListIsComplete(captures: seq<CaptureRow>, session: Id)
    ensures forall k | 0 <= k < |captures| && captures[k].session == session && captures[k].deliverable ::
              captures[k].id in ListBySession(captures, session)
    ensures ListBySession(captures, session) != [] ==>
              exists k | 0 <= k < |captures| :: captures[k].session == session && captures[k].deliverable
  {
    if |captures| > 0 {
      ListIsComplete(captures[..|captures| - 1], session);
    }
  }
}
