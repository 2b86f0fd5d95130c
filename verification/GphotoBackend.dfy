/**
 The event queue of camera/gphoto.py: `trigger_capture` drains what is already queued, fires, and takes
 the first file-added event that follows, whoever caused it.

 The camera holds a queue of events and knows what is still to arrive, and when; a shutter release, by the
 program or by hand, adds arrivals to that time line.  So an event that an earlier release caused can
 outlive the drain, and when it does the theorems say exactly whose file is taken.
 */
module GphotoBackends {
  import opened Results

  type CaptureId = nat

  datatype FilePath = FilePath(folder: string, name: string)

  datatype CameraEvent = FileAdded(path: FilePath) | CaptureComplete | Unknown

  /** An event and how many milliseconds after the one before it arrives. */
  datatype Arrival = Arrival(event: CameraEvent, delay: nat)

  const EVENT_POLL_MS: nat := 1000
  const EVENT_WAIT_BUDGET_MS: nat := 10000
  const DRAIN_POLL_MS: nat := 10

  function Events(arrivals: seq<Arrival>): seq<CameraEvent> {
    if |arrivals| == 0 then [] else [arrivals[0].event] + Events(arrivals[1..])
  }

  /** The first file among some events. */
  function FirstFile(events: seq<CameraEvent>): Option<FilePath> {
    if |events| == 0 then None
    else if events[0].FileAdded? then Some(events[0].path)
    else FirstFile(events[1..])
  }

  // ---------------------------------------------------------------- the time line

  /** The same arrivals, seen `ms` later, when none of them is due yet. */
  function Later(coming: seq<Arrival>, ms: nat): seq<Arrival>
    requires |coming| > 0 ==> coming[0].delay >= ms
  {
    if |coming| == 0 then coming else [Arrival(coming[0].event, coming[0].delay - ms)] + coming[1..]
  }

  /** What the camera reports when two releases are both under way; on a tie the earlier release comes first. */
  function Merge(late: seq<Arrival>, own: seq<Arrival>): seq<Arrival>
    decreases |late| + |own|
  {
    if |late| == 0 then own
    else if |own| == 0 then late
    else if late[0].delay <= own[0].delay then [late[0]] + Merge(late[1..], Later(own, late[0].delay))
    else [own[0]] + Merge(Later(late, own[0].delay), own[1..])
  }

  /** Queued events, seen as arrivals: they take no time. */
  function AtOnce(events: seq<CameraEvent>): seq<Arrival> {
    if |events| == 0 then [] else [Arrival(events[0], 0)] + AtOnce(events[1..])
  }

  /** The queue and what is still to arrive, `ms` later. */
  function Elapse(queue: seq<CameraEvent>, coming: seq<Arrival>, ms: nat): (seq<CameraEvent>, seq<Arrival>)
    decreases |coming|
  {
    if |coming| == 0 || coming[0].delay > ms then (queue, Later(coming, ms))
    else Elapse(queue + [coming[0].event], coming[1..], ms - coming[0].delay)
  }

  function TotalDelay(coming: seq<Arrival>): nat {
    if |coming| == 0 then 0 else coming[0].delay + TotalDelay(coming[1..])
  }

  // ---------------------------------------------------------------- the two loops

  /** The camera after a wait in which nothing arrived. */
  function AfterTimeout(coming: seq<Arrival>, timeout: nat): seq<Arrival> {
    if |coming| == 0 || coming[0].delay <= timeout then coming else Later(coming, timeout)
  }

  /** The drain loop on what is still to arrive. */
  function AfterDrain(coming: seq<Arrival>): seq<Arrival> {
    if |coming| > 0 && coming[0].delay <= DRAIN_POLL_MS then AfterDrain(coming[1..])
    else AfterTimeout(coming, DRAIN_POLL_MS)
  }

  /** What outlives the drain: it takes the queue, and what arrives before the first pause of more than a poll. */
  function Drained(queue: seq<CameraEvent>, coming: seq<Arrival>): seq<Arrival> {
    AfterDrain(AtOnce(queue) + coming)
  }

  lemma {:induction false} DrainEmptiesQueue(queue: seq<CameraEvent>, coming: seq<Arrival>)
    ensures Drained(queue, coming) == AfterDrain(coming)
  {
    if |queue| == 0 {
      assert AtOnce(queue) + coming == coming;
    } else {
      assert (AtOnce(queue) + coming)[1..] == AtOnce(queue[1..]) + coming;
      DrainEmptiesQueue(queue[1..], coming);
    }
  }

  /** The wait loop with `left` milliseconds on its budget. */
  function AwaitFile(coming: seq<Arrival>, left: int): (Option<FilePath>, seq<Arrival>)
    decreases |coming|, if left > 0 then left else 0
  {
    if left <= 0 || |coming| == 0 then (None, coming)
    else if coming[0].delay > EVENT_POLL_MS then
      AwaitFile(AfterTimeout(coming, EVENT_POLL_MS), left - EVENT_POLL_MS)
    else if coming[0].event.FileAdded? then (Some(coming[0].event.path), coming[1..])
    else AwaitFile(coming[1..], left - coming[0].delay)
  }

  lemma LaterKeepsEvents(coming: seq<Arrival>, ms: nat)
    requires |coming| > 0 ==> coming[0].delay >= ms
    ensures Events(Later(coming, ms)) == Events(coming)
  {
    if |coming| > 0 {
      assert Later(coming, ms)[1..] == coming[1..];
    }
  }

  /** The wait finds the first file of the events it waits for, or none. */
  lemma {:induction false} AwaitFindsFirstFile(coming: seq<Arrival>, left: int)
    ensures AwaitFile(coming, left).0.Some? ==> AwaitFile(coming, left).0 == FirstFile(Events(coming))
    decreases |coming|, if left > 0 then left else 0
  {
    if left > 0 && |coming| > 0 {
      assert Events(coming)[1..] == Events(coming[1..]);
      if coming[0].delay > EVENT_POLL_MS {
        LaterKeepsEvents(coming, EVENT_POLL_MS);
        AwaitFindsFirstFile(Later(coming, EVENT_POLL_MS), left - EVENT_POLL_MS);
      } else {
        AwaitFindsFirstFile(coming[1..], left - coming[0].delay);
      }
    }
  }

  predicate HasFile(coming: seq<Arrival>) {
    FirstFile(Events(coming)).Some?
  }

  /** The time the polls that come to nothing take while an event is `delay` away. */
  function IdlePolls(delay: nat): nat {
    if delay <= EVENT_POLL_MS then 0 else EVENT_POLL_MS + IdlePolls(delay - EVENT_POLL_MS)
  }

  /** When the poll that returns the first file begins. */
  function PollStart(coming: seq<Arrival>): nat
    requires HasFile(coming)
  {
    assert Events(coming)[1..] == Events(coming[1..]);
    if coming[0].event.FileAdded? then IdlePolls(coming[0].delay) else coming[0].delay + PollStart(coming[1..])
  }

  /** The deadline is looked at only when a poll begins, so a file is found if and only if its poll begins in time. */
  lemma {:induction false} FileFoundInTime(coming: seq<Arrival>, left: int)
    ensures AwaitFile(coming, left).0.Some? <==> HasFile(coming) && PollStart(coming) < left
    decreases |coming|, if left > 0 then left else 0
  {
    if |coming| > 0 && left > 0 {
      assert Events(coming)[1..] == Events(coming[1..]);
      if coming[0].delay > EVENT_POLL_MS {
        LaterKeepsEvents(coming, EVENT_POLL_MS);
        assert Later(coming, EVENT_POLL_MS)[1..] == coming[1..];
        FileFoundInTime(Later(coming, EVENT_POLL_MS), left - EVENT_POLL_MS);
      } else if !coming[0].event.FileAdded? {
        FileFoundInTime(coming[1..], left - coming[0].delay);
      }
    }
  }

  // ---------------------------------------------------------------- whose file

  /** When the first file arrives. */
  function FirstFileAt(coming: seq<Arrival>): nat
    requires HasFile(coming)
  {
    assert Events(coming)[1..] == Events(coming[1..]);
    coming[0].delay + (if coming[0].event.FileAdded? then 0 else FirstFileAt(coming[1..]))
  }

  /** No file that outlives the drain arrives before the first own file, or together with it. */
  predicate OwnFileFirst(late: seq<Arrival>, own: seq<Arrival>) {
    HasFile(own) && (HasFile(late) ==> FirstFileAt(own) < FirstFileAt(late))
  }

  lemma LaterFile(coming: seq<Arrival>, ms: nat)
    requires |coming| > 0 && coming[0].delay >= ms
    ensures Events(Later(coming, ms)) == Events(coming)
    ensures HasFile(coming) ==> FirstFileAt(Later(coming, ms)) == FirstFileAt(coming) - ms
  {
    LaterKeepsEvents(coming, ms);
    assert Later(coming, ms)[1..] == coming[1..];
  }

  lemma {:induction false} MergeTakesFirstFile(late: seq<Arrival>, own: seq<Arrival>)
    ensures FirstFile(Events(Merge(late, own))) == FirstFile(Events(if OwnFileFirst(late, own) then own else late))
    decreases |late| + |own|
  {
    if |late| > 0 && |own| > 0 {
      assert Events(late)[1..] == Events(late[1..]) && Events(own)[1..] == Events(own[1..]);
      if late[0].delay <= own[0].delay {
        LaterFile(own, late[0].delay);
        assert Merge(late, own)[1..] == Merge(late[1..], Later(own, late[0].delay));
        MergeTakesFirstFile(late[1..], Later(own, late[0].delay));
      } else {
        LaterFile(late, own[0].delay);
        assert Merge(late, own)[1..] == Merge(Later(late, own[0].delay), own[1..]);
        MergeTakesFirstFile(Later(late, own[0].delay), own[1..]);
      }
    }
  }

  /** Without the drain a wait that finds the queue as it was left returns the first file in it, whatever the
      trigger produces; it finds what a drained queue would have given it when no file is queued. */
  lemma {:induction false} UndrainedTakesStaleFile(queued: seq<CameraEvent>, produced: seq<Arrival>, left: int)
    requires left > 0
    ensures FirstFile(queued).Some? ==> AwaitFile(AtOnce(queued) + produced, left).0 == FirstFile(queued)
    ensures FirstFile(queued).None? ==> AwaitFile(AtOnce(queued) + produced, left) == AwaitFile(produced, left)
    ensures Drained(queued, []) == []
  {
    DrainEmptiesQueue(queued, []);
    if |queued| == 0 {
      assert AtOnce(queued) + produced == produced;
    } else {
      var arrivals := AtOnce(queued) + produced;
      assert arrivals[0] == Arrival(queued[0], 0);
      assert arrivals[1..] == AtOnce(queued[1..]) + produced;
      UndrainedTakesStaleFile(queued[1..], produced, left);
    }
  }

  // ---------------------------------------------------------------- in milliseconds

  /** A file that is all the camera reports is found up to ten seconds after the release, and not later. */
  lemma {:induction false} LoneFile(path: FilePath, delay: nat)
    ensures AwaitFile([Arrival(FileAdded(path), delay)], EVENT_WAIT_BUDGET_MS).0
         == if delay <= 10_000 then Some(path) else None
  {
    var coming := [Arrival(FileAdded(path), delay)];
    assert Events(coming) == [FileAdded(path)] by { assert coming[1..] == []; }
    FileFoundInTime(coming, EVENT_WAIT_BUDGET_MS);
    AwaitFindsFirstFile(coming, EVENT_WAIT_BUDGET_MS);
    IdlePollsBefore(delay, 10);
  }

  lemma {:induction false} IdlePollsBefore(delay: nat, polls: nat)
    requires polls > 0
    ensures IdlePolls(delay) < 1000 * polls <==> delay <= 1000 * polls
    decreases delay
  {
    if delay > EVENT_POLL_MS && polls > 1 {
      IdlePollsBefore(delay - EVENT_POLL_MS, polls - 1);
    }
  }

  /** The drain waits ten milliseconds for an event, and leaves one that comes later, with that much less to wait. */
  lemma {:induction false} LoneEvent(event: CameraEvent, delay: nat)
    ensures Drained([], [Arrival(event, delay)]) == if delay <= 10 then [] else [Arrival(event, delay - 10)]
  {
    DrainEmptiesQueue([], [Arrival(event, delay)]);
    assert [Arrival(event, delay)][1..] == [];
  }

  // ---------------------------------------------------------------- a camera that is lost

  /** How many calls the camera still answers before one raises a GPhoto2Error; None if it is never lost. */
  type Life = Option<nat>

  function Used(life: Life): Life {
    if life.Some? && life.value > 0 then Some(life.value - 1) else life
  }

  datatype Drain = Drain(queue: seq<CameraEvent>, coming: seq<Arrival>, life: Life, lost: bool)

  /** The drain loop, call by call. */
  function DrainLoop(queue: seq<CameraEvent>, coming: seq<Arrival>, life: Life): Drain
    decreases |queue| + |coming|
  {
    if life == Some(0) then Drain(queue, coming, life, true)
    else if |queue| > 0 then DrainLoop(queue[1..], coming, Used(life))
    else if |coming| > 0 && coming[0].delay <= DRAIN_POLL_MS then DrainLoop(queue, coming[1..], Used(life))
    else Drain(queue, AfterTimeout(coming, DRAIN_POLL_MS), Used(life), false)
  }

  datatype Wait = Wait(found: Option<FilePath>, coming: seq<Arrival>, lost: bool)

  /** The wait loop, call by call. */
  function WaitLoop(coming: seq<Arrival>, left: int, life: Life): Wait
    decreases |coming|, if left > 0 then left else 0
  {
    if left <= 0 then Wait(None, coming, false)
    else if life == Some(0) then Wait(None, coming, true)
    else if |coming| == 0 || coming[0].delay > EVENT_POLL_MS then
      WaitLoop(AfterTimeout(coming, EVENT_POLL_MS), left - EVENT_POLL_MS, Used(life))
    else if coming[0].event.FileAdded? then Wait(Some(coming[0].event.path), coming[1..], false)
    else WaitLoop(coming[1..], left - coming[0].delay, Used(life))
  }

  lemma {:induction false} DrainUnlessLost(queue: seq<CameraEvent>, coming: seq<Arrival>, life: Life)
    ensures life.None? ==> !DrainLoop(queue, coming, life).lost
    ensures !DrainLoop(queue, coming, life).lost ==>
      DrainLoop(queue, coming, life).queue == [] && DrainLoop(queue, coming, life).coming == Drained(queue, coming)
    decreases |queue| + |coming|
  {
    DrainEmptiesQueue(queue, coming);
    if life != Some(0) {
      if |queue| > 0 {
        DrainUnlessLost(queue[1..], coming, Used(life));
        DrainEmptiesQueue(queue[1..], coming);
      } else if |coming| > 0 && coming[0].delay <= DRAIN_POLL_MS {
        DrainUnlessLost(queue, coming[1..], Used(life));
        DrainEmptiesQueue(queue, coming[1..]);
      }
    }
  }

  lemma {:induction false} WaitUnlessLost(coming: seq<Arrival>, left: int, life: Life)
    ensures life.None? ==> !WaitLoop(coming, left, life).lost
    ensures WaitLoop(coming, left, life).lost ==> WaitLoop(coming, left, life).found.None?
    ensures !WaitLoop(coming, left, life).lost ==>
      (WaitLoop(coming, left, life).found, WaitLoop(coming, left, life).coming) == AwaitFile(coming, left)
    decreases |coming|, if left > 0 then left else 0
  {
    if left > 0 && life != Some(0) {
      if |coming| == 0 || coming[0].delay > EVENT_POLL_MS {
        WaitUnlessLost(AfterTimeout(coming, EVENT_POLL_MS), left - EVENT_POLL_MS, Used(life));
      } else if !coming[0].event.FileAdded? {
        WaitUnlessLost(coming[1..], left - coming[0].delay, Used(life));
      }
    }
  }

  // ---------------------------------------------------------------- the backend as a value

  datatype CameraError = NotConnected | TimedOut | Lost | UnknownCapture

  datatype Backend = Backend(
    connected: bool, queue: seq<CameraEvent>, coming: seq<Arrival>,
    pending: map<CaptureId, FilePath>, nextId: CaptureId)

  /** `trigger_capture`; a release that is lost makes nothing arrive. */
  function Triggered(b: Backend, produced: seq<Arrival>, life: Life): (Result<CaptureId, CameraError>, Backend) {
    if !b.connected then (Err(NotConnected), b)
    else
      var drain := DrainLoop(b.queue, b.coming, life);
      if drain.lost || drain.life == Some(0) then (Err(Lost), b.(queue := drain.queue, coming := drain.coming))
      else
        var wait := WaitLoop(Merge(drain.coming, produced), EVENT_WAIT_BUDGET_MS, Used(drain.life));
        var after := b.(queue := drain.queue, coming := wait.coming);
        if wait.lost then (Err(Lost), after)
        else if wait.found.None? then (Err(TimedOut), after)
        else (Ok(b.nextId), after.(nextId := b.nextId + 1, pending := b.pending[b.nextId := wait.found.value]))
  }

  /** The same for a camera that is never lost, in terms of what outlives the drain and what is then found. */
  function TriggeredAlive(b: Backend, produced: seq<Arrival>): (Result<CaptureId, CameraError>, Backend) {
    if !b.connected then (Err(NotConnected), b)
    else
      var (found, coming) := AwaitFile(Merge(Drained(b.queue, b.coming), produced), EVENT_WAIT_BUDGET_MS);
      if found.None? then (Err(TimedOut), b.(queue := [], coming := coming))
      else (Ok(b.nextId), b.(queue := [], coming := coming, nextId := b.nextId + 1,
                             pending := b.pending[b.nextId := found.value]))
  }

  /** Losing the camera, while draining, at the release or while waiting, loses the capture and nothing else: no id
      is stored or used up.  A call that is not lost does what it does on a camera that never is. */
  lemma LossOnlyLoses(b: Backend, produced: seq<Arrival>, life: Life)
    ensures var (r, after) := Triggered(b, produced, life);
            if r == Err(Lost)
            then life.Some? && after.pending == b.pending && after.nextId == b.nextId && after.connected == b.connected
            else (r, after) == TriggeredAlive(b, produced)
  {
    if b.connected {
      DrainUnlessLost(b.queue, b.coming, life);
      var drain := DrainLoop(b.queue, b.coming, life);
      WaitUnlessLost(Merge(drain.coming, produced), EVENT_WAIT_BUDGET_MS, Used(drain.life));
      LifeOfTheForever(b.queue, b.coming, life);
    }
  }

  lemma {:induction false} LifeOfTheForever(queue: seq<CameraEvent>, coming: seq<Arrival>, life: Life)
    ensures life.None? ==> DrainLoop(queue, coming, life).life.None?
    decreases |queue| + |coming|
  {
    if life.None? {
      if |queue| > 0 {
        LifeOfTheForever(queue[1..], coming, life);
      } else if |coming| > 0 && coming[0].delay <= DRAIN_POLL_MS {
        LifeOfTheForever(queue, coming[1..], life);
      }
    }
  }

  function Downloaded(b: Backend, id: CaptureId, lost: bool): (Result<FilePath, CameraError>, Backend) {
    if !b.connected then (Err(NotConnected), b)
    else if id !in b.pending then (Err(UnknownCapture), b)
    else (if lost then Err(Lost) else Ok(b.pending[id]), b.(pending := b.pending - {id}))
  }

  function Disconnected(b: Backend): Backend {
    b.(connected := false, pending := map[])
  }

  /** When a capture succeeds on a camera that is not lost, and whose file a successful one then takes: its own if
      and only if no file that outlived the drain comes first.  (Where both files have the same path there is
      nothing to tell apart.) */
  lemma CaptureGetsOwnFile(b: Backend, produced: seq<Arrival>, life: Life)
    requires b.connected
    ensures var (r, after) := Triggered(b, produced, life);
            var late := Drained(b.queue, b.coming);
            var all := Merge(late, produced);
            && (r != Err(Lost) ==> (r.Ok? <==> HasFile(all) && PollStart(all) < EVENT_WAIT_BUDGET_MS))
            && (r.Ok? && FirstFile(Events(late)) != FirstFile(Events(produced)) ==>
                  (Some(after.pending[r.value]) == FirstFile(Events(produced)) <==> OwnFileFirst(late, produced)))
  {
    var late := Drained(b.queue, b.coming);
    LossOnlyLoses(b, produced, life);
    FileFoundInTime(Merge(late, produced), EVENT_WAIT_BUDGET_MS);
    AwaitFindsFirstFile(Merge(late, produced), EVENT_WAIT_BUDGET_MS);
    MergeTakesFirstFile(late, produced);
  }

  // ---------------------------------------------------------------- the camera and the backend as objects

  class Camera {
    var queue: seq<CameraEvent>
    var coming: seq<Arrival>
    var clock: nat

    constructor ()
      ensures queue == [] && coming == []
    {
      queue, coming, clock := [], [], 0;
    }

    /** `wait_for_event`: a queued event at once, or the next one if it arrives in time. */
    method WaitForEvent(timeout: nat) returns (event: Option<CameraEvent>)
      modifies this
      ensures old(queue) != [] ==>
                event == Some(old(queue)[0]) && queue == old(queue)[1..] && coming == old(coming) && clock == old(clock)
      ensures old(queue) == [] ==>
                && queue == []
                && (|old(coming)| > 0 && old(coming)[0].delay <= timeout ==>
                      && event == Some(old(coming)[0].event) && coming == old(coming)[1..]
                      && clock == old(clock) + old(coming)[0].delay)
                && (|old(coming)| == 0 || old(coming)[0].delay > timeout ==>
                      event.None? && coming == AfterTimeout(old(coming), timeout) && clock == old(clock) + timeout)
    {
      if |queue| > 0 {
        event := Some(queue[0]);
        queue := queue[1..];
      } else if |coming| > 0 && coming[0].delay <= timeout {
        event := Some(coming[0].event);
        clock := clock + coming[0].delay;
        coming := coming[1..];
      } else {
        event := None;
        coming := AfterTimeout(coming, timeout);
        clock := clock + timeout;
      }
    }

    /** A release, by the program or by hand: its events join those that are still to arrive. */
    method Release(produced: seq<Arrival>)
      modifies this`coming
      ensures coming == Merge(old(coming), produced)
    {
      coming := Merge(coming, produced);
    }
  }

  class GphotoBackend {
    const device: Camera
    var camera: Option<Camera>
    var pending: map<CaptureId, FilePath>
    var nextId: CaptureId

    ghost predicate Valid()
      reads this
    {
      camera.Some? ==> camera.value == device
    }

    ghost function View(): Backend
      reads this, device
    {
      Backend(camera.Some?, device.queue, device.coming, pending, nextId)
    }

    constructor (device: Camera)
      ensures Valid() && this.device == device
      ensures View() == Backend(false, device.queue, device.coming, map[], 0)
    {
      this.device := device;
      camera, pending, nextId := None, map[], 0;
    }

    method Connect(found: bool) returns (ok: bool)
      requires Valid()
      modifies this`camera
      ensures Valid() && ok == found
      ensures View() == if found then old(View()).(connected := true) else old(View())
    {
      if found {
        camera := Some(device);
      }
      ok := found;
    }

    method Disconnect()
      requires Valid()
      modifies this`camera, this`pending
      ensures Valid() && View() == Disconnected(old(View()))
      ensures camera.None? && pending == map[]
    {
      camera := None;
      pending := map[];
    }

    /** Terminates on any queue and, if the camera is not lost meanwhile, leaves it empty. */
    method DrainStaleEvents(cam: Camera, life: Life) returns (left: Life, lost: bool)
      modifies cam
      ensures Drain(cam.queue, cam.coming, left, lost) == DrainLoop(old(cam.queue), old(cam.coming), life)
      ensures !lost ==> cam.queue == [] && cam.coming == Drained(old(cam.queue), old(cam.coming))
      ensures life.None? ==> !lost
    {
      DrainUnlessLost(cam.queue, cam.coming, life);
      left := life;
      while true
        invariant DrainLoop(cam.queue, cam.coming, left) == DrainLoop(old(cam.queue), old(cam.coming), life)
        decreases |cam.queue|, |cam.coming|
      {
        if left == Some(0) {
          return left, true;
        }
        left := Used(left);
        var event := cam.WaitForEvent(DRAIN_POLL_MS);
        if event.None? {
          return left, false;
        }
      }
    }

    /** `produced` is what the shutter release makes the camera report, and when; `life` tells which of the camera
        calls, if any, raises a GPhoto2Error. */
    method TriggerCapture(produced: seq<Arrival>, life: Life) returns (r: Result<CaptureId, CameraError>)
      requires Valid()
      modifies this`pending, this`nextId, device
      ensures Valid() && (r, View()) == Triggered(old(View()), produced, life)
      ensures camera.None? ==> r == Err(NotConnected)
      ensures r.Err? ==> pending == old(pending) && nextId == old(nextId)
      ensures r.Ok? ==> r.value == old(nextId) && nextId == r.value + 1 && pending.Keys == old(pending.Keys) + {r.value}
      ensures forall id | id in old(pending) && id != old(nextId) :: id in pending && pending[id] == old(pending)[id]
    {
      if camera.None? {
        return Err(NotConnected);
      }
      var cam := camera.value;
      var left, lost := DrainStaleEvents(cam, life);
      if lost || left == Some(0) {
        return Err(Lost);
      }
      left := Used(left);
      ghost var late, alive := cam.coming, left;
      cam.Release(produced);
      var deadline: int := cam.clock + EVENT_WAIT_BUDGET_MS;
      while cam.clock < deadline
        invariant cam.queue == []
        invariant WaitLoop(cam.coming, deadline - cam.clock, left)
               == WaitLoop(Merge(late, produced), EVENT_WAIT_BUDGET_MS, alive)
        invariant pending == old(pending) && nextId == old(nextId)
        decreases |cam.coming|, deadline - cam.clock
      {
        if left == Some(0) {
          return Err(Lost);
        }
        left := Used(left);
        var event := cam.WaitForEvent(EVENT_POLL_MS);
        if event.Some? && event.value.FileAdded? {
          var id := nextId;
          nextId := nextId + 1;
          pending := pending[id := event.value.path];
          return Ok(id);
        }
      }
      return Err(TimedOut);
    }

    /** The file stored under the id, once; `lost` is a GPhoto2Error raised by the transfer. */
    method DownloadFull(id: CaptureId, lost: bool) returns (r: Result<FilePath, CameraError>)
      requires Valid()
      modifies this`pending
      ensures Valid() && (r, View()) == Downloaded(old(View()), id, lost)
      ensures r == if camera.None? then Err(NotConnected)
                   else if id !in old(pending) then Err(UnknownCapture)
                   else if lost then Err(Lost)
                   else Ok(old(pending)[id])
      ensures camera.Some? ==> id !in pending
      ensures forall k | k != id :: k in pending <==> k in old(pending)
    {
      if camera.None? {
        return Err(NotConnected);
      }
      if id !in pending {
        return Err(UnknownCapture);
      }
      var path := pending[id];
      pending := pending - {id};
      if lost {
        return Err(Lost);
      }
      return Ok(path);
    }
  }
}
