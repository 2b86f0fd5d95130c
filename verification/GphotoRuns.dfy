/**
 Whole runs of the camera and the backend: captures, downloads, disconnects, physical shutter presses and the
 passing of time, in any order, with every capture possibly losing the camera.
 */
module GphotoRuns {
  import opened Results
  import opened GphotoBackends

  /** What was still to arrive when the release came, and what the release itself made arrive. */
  datatype Origin = Origin(late: seq<Arrival>, own: seq<Arrival>)

  /** `origins` and `delivered` are kept by the model only. */
  datatype State = State(backend: Backend, origins: map<CaptureId, Origin>, delivered: seq<(CaptureId, FilePath)>)

  datatype Action =
    | Shutter(produced: seq<Arrival>)
    | Pause(ms: nat)
    | Capture(produced: seq<Arrival>, life: Life)
    | Download(id: CaptureId, lost: bool)
    | Disconnect
    | Connect

  const START: State := State(Backend(false, [], [], map[], 0), map[], [])

  function Step(s: State, a: Action): State {
    var b := s.backend;
    match a
    case Shutter(produced) => s.(backend := b.(coming := Merge(b.coming, produced)))
    case Pause(ms) =>
      var (queue, coming) := Elapse(b.queue, b.coming, ms);
      s.(backend := b.(queue := queue, coming := coming))
    case Capture(produced, life) =>
      var (r, after) := Triggered(b, produced, life);
      s.(backend := after,
         origins := if r.Ok? then s.origins[r.value := Origin(Drained(b.queue, b.coming), produced)] else s.origins)
    case Download(id, lost) =>
      var (r, after) := Downloaded(b, id, lost);
      s.(backend := after, delivered := if r.Ok? then s.delivered + [(id, r.value)] else s.delivered)
    case Disconnect => s.(backend := Disconnected(b))
    case Connect => s.(backend := b.(connected := true))
  }

  function Run(s: State, actions: seq<Action>): State
    decreases |actions|
  {
    if |actions| == 0 then s else Run(Step(s, actions[0]), actions[1..])
  }

  /** The file a capture takes: the first that arrives after its release, whoever caused it. */
  function FileOf(o: Origin): Option<FilePath> {
    FirstFile(Events(Merge(o.late, o.own)))
  }

  ghost predicate PendingOk(s: State) {
    forall id | id in s.backend.pending :: id in s.origins && Some(s.backend.pending[id]) == FileOf(s.origins[id])
  }

  ghost predicate DeliveredOk(s: State) {
    && (forall k | 0 <= k < |s.delivered| ::
          && s.delivered[k].0 in s.origins
          && Some(s.delivered[k].1) == FileOf(s.origins[s.delivered[k].0])
          && s.delivered[k].0 !in s.backend.pending)
    && (forall k, l | 0 <= k < l < |s.delivered| :: s.delivered[k].0 != s.delivered[l].0)
  }

  ghost predicate Inv(s: State) {
    PendingOk(s) && DeliveredOk(s) && forall id | id in s.origins :: id < s.backend.nextId
  }

  lemma StepKeepsInv(s: State, a: Action)
    requires Inv(s)
    ensures Inv(Step(s, a))
  {
    if a.Capture? {
      LossOnlyLoses(s.backend, a.produced, a.life);
      AwaitFindsFirstFile(Merge(Drained(s.backend.queue, s.backend.coming), a.produced), EVENT_WAIT_BUDGET_MS);
      var r := Step(s, a);
      assert PendingOk(r);
      assert DeliveredOk(r);
    }
  }

  lemma {:induction false} RunKeepsInv(s: State, actions: seq<Action>)
    requires Inv(s)
    ensures Inv(Run(s, actions))
    decreases |actions|
  {
    if |actions| > 0 {
      StepKeepsInv(s, actions[0]);
      RunKeepsInv(Step(s, actions[0]), actions[1..]);
    }
  }

  function FirstOf(o: Origin): seq<Arrival> {
    if OwnFileFirst(o.late, o.own) then o.own else o.late
  }

  /** The file of a capture is its own if no file that outlived the drain came first, else the one that did. */
  ghost predicate IsFileOf(file: FilePath, o: Origin) {
    Some(file) == FirstFile(Events(FirstOf(o)))
  }

  /** In every run of captures, timeouts, losses, disconnects, waits and physical shutter presses, however
      their events overlap: the file under an id is the first own file of its trigger exactly when nothing
      that outlived the drain brought one before it, and otherwise that earlier one.  A download returns
      that file, and no id is downloaded twice. */
  lemma {:induction false} WhoseFile(actions: seq<Action>)
    ensures var s := Run(START, actions);
            && (forall id | id in s.backend.pending ::
                  id in s.origins && IsFileOf(s.backend.pending[id], s.origins[id]))
            && (forall k | 0 <= k < |s.delivered| ::
                  s.delivered[k].0 in s.origins && IsFileOf(s.delivered[k].1, s.origins[s.delivered[k].0]))
            && (forall k, l | 0 <= k < l < |s.delivered| :: s.delivered[k].0 != s.delivered[l].0)
  {
    RunKeepsInv(START, actions);
    var s := Run(START, actions);
    forall id | id in s.origins
      ensures FileOf(s.origins[id]) == FirstFile(Events(FirstOf(s.origins[id])))
    {
      MergeTakesFirstFile(s.origins[id].late, s.origins[id].own);
    }
  }

  /** What earlier actions still owe contains no file by the time the drain is over. */
  predicate Settled(b: Backend) {
    !HasFile(Drained(b.queue, b.coming))
  }

  predicate SettledRun(s: State, actions: seq<Action>)
    decreases |actions|
  {
    |actions| == 0 ||
      ((actions[0].Capture? ==> Settled(s.backend)) && SettledRun(Step(s, actions[0]), actions[1..]))
  }

  ghost predicate NothingLate(s: State) {
    forall id | id in s.origins :: !HasFile(s.origins[id].late)
  }

  lemma {:induction false} SettledOrigins(s: State, actions: seq<Action>)
    requires SettledRun(s, actions)
    requires NothingLate(s)
    ensures NothingLate(Run(s, actions))
    decreases |actions|
  {
    if |actions| > 0 {
      var r := Step(s, actions[0]);
      forall id | id in r.origins ensures !HasFile(r.origins[id].late) {
        if actions[0].Capture? && id !in s.origins {
          assert Settled(s.backend);
        }
      }
      SettledOrigins(r, actions[1..]);
    }
  }

  /** So when every capture starts settled, an id always stands for the first file that its own trigger
      produced, and a download returns that one. */
  lemma {:induction false} NoStalePicture(actions: seq<Action>)
    requires SettledRun(START, actions)
    ensures var s := Run(START, actions);
            && (forall id | id in s.backend.pending ::
                  id in s.origins && Some(s.backend.pending[id]) == FirstFile(Events(s.origins[id].own)))
            && (forall k | 0 <= k < |s.delivered| ::
                  && s.delivered[k].0 in s.origins
                  && Some(s.delivered[k].1) == FirstFile(Events(s.origins[s.delivered[k].0].own)))
  {
    WhoseFile(actions);
    SettledOrigins(START, actions);
  }

  /** Waiting settles: once everything has arrived it is queued, and the drain takes all of it. */
  lemma {:induction false} WaitingSettles(s: State, ms: nat)
    requires ms >= TotalDelay(s.backend.coming)
    ensures Settled(Step(s, Pause(ms)).backend)
  {
    ElapseAll(s.backend.queue, s.backend.coming, ms);
    DrainEmptiesQueue(Elapse(s.backend.queue, s.backend.coming, ms).0, []);
  }

  lemma {:induction false} ElapseAll(queue: seq<CameraEvent>, coming: seq<Arrival>, ms: nat)
    requires ms >= TotalDelay(coming)
    ensures Elapse(queue, coming, ms) == (queue + Events(coming), [])
    decreases |coming|
  {
    if |coming| == 0 {
      assert queue + [] == queue;
    } else {
      var next, rest := queue + [coming[0].event], ms - coming[0].delay;
      assert Elapse(queue, coming, ms) == Elapse(next, coming[1..], rest);
      ElapseAll(next, coming[1..], rest);
      assert next + Events(coming[1..]) == queue + ([coming[0].event] + Events(coming[1..]));
    }
  }
}
