/**
 Why the sharing theorems speak of one capture() at a time: CAPTURING -> COUNTDOWN is an edge that the machine
 has for the next shot of the same capture, and it lets a second capture() in.
 */
module SessionOverlap {
  import opened Results
  import opened SessionProtocol
  import opened SessionSharing
  import SessionTrace

  const NO_PREVIEW: Reply := Reply(None, false)

  function Wakes(k: nat, n: nat): seq<Action> {
    if n == 0 then [] else [Wake(k, NO_PREVIEW)] + Wakes(k, n - 1)
  }

  function Woken(w: World, k: nat, n: nat): World
    decreases n
  {
    if n == 0 then w else Woken(Step(w, Wake(k, NO_PREVIEW)), k, n - 1)
  }

  lemma {:induction false} WakesRun(w: World, k: nat, n: nat)
    ensures Run(w, Wakes(k, n)) == Woken(w, k, n)
    decreases n
  {
    if n > 0 {
      assert Wakes(k, n)[1..] == Wakes(k, n - 1);
      WakesRun(Step(w, Wake(k, NO_PREVIEW)), k, n - 1);
    }
  }

  /** Two captures of one session: the second starts while the first waits for the shutter, and the first then
      finds REVIEW refused, after it has issued the token. */
  function OverlappingRun(): seq<Action> {
    [ArmOk(None), StartCapture] + Wakes(0, 4) + [StartCapture] + Wakes(0, 4) + Wakes(1, 5)
  }

  /** The first capture at its trigger. */
  const AT_TRIGGER: World :=
    World(NewBooth(true).(state := CAPTURING, sessionId := 1, nextId := 2,
                          sessions := map[1 := SessionRow(CAPTURING, None)],
                          log := [StateChanged(1, ARMED, None), StateChanged(1, COUNTDOWN, None),
                                  CountdownStarted(1, 0, 1), StateChanged(1, CAPTURING, None)]),
          [Frame(Triggering, 0, 1, [], 0)])

  lemma FourWakes(w: World, k: nat)
    ensures var a := Wake(k, NO_PREVIEW);
            Woken(w, k, 4) == Step(Step(Step(Step(w, a), a), a), a)
  {
    var w1 := Step(w, Wake(k, NO_PREVIEW));
    var w2 := Step(w1, Wake(k, NO_PREVIEW));
    var w3 := Step(w2, Wake(k, NO_PREVIEW));
    assert Woken(w, k, 4) == Woken(w1, k, 3) == Woken(w2, k, 2) == Woken(w3, k, 1);
  }

  /** The first capture counts down. */
  const COUNTING: World :=
    World(NewBooth(true).(state := COUNTDOWN, sessionId := 1, nextId := 2,
                          sessions := map[1 := SessionRow(COUNTDOWN, None)],
                          log := [StateChanged(1, ARMED, None), StateChanged(1, COUNTDOWN, None)]),
          [Frame(CountdownStateSent, 0, 1, [], 0)])

  lemma ReachesCountdown()
    ensures Run(Opening(true), [ArmOk(None), StartCapture]) == COUNTING
  {
    var w0 := Opening(true);
    var w1 := Step(w0, ArmOk(None));
    var w2 := Step(w1, StartCapture);
    assert [ArmOk(None), StartCapture][1..] == [StartCapture];
    assert Run(w0, [ArmOk(None), StartCapture]) == Run(w1, [StartCapture]) == w2;
    assert w2.booth.log == COUNTING.booth.log && w2.booth.sessions == COUNTING.booth.sessions;
  }

  lemma ReachesTrigger()
    ensures Run(Opening(true), [ArmOk(None), StartCapture] + Wakes(0, 4)) == AT_TRIGGER
  {
    ReachesCountdown();
    SessionTrace.RunConcat(Opening(true), [ArmOk(None), StartCapture], Wakes(0, 4));
    WakesRun(COUNTING, 0, 4);
    FourWakes(COUNTING, 0);
    var w1 := Step(COUNTING, Wake(0, NO_PREVIEW));
    var w2 := Step(w1, Wake(0, NO_PREVIEW));
    assert w2.captures == [Frame(Sleeping, 0, 1, [], 0)];
    var w4 := Step(Step(w2, Wake(0, NO_PREVIEW)), Wake(0, NO_PREVIEW));
    assert w4.booth.log == AT_TRIGGER.booth.log && w4.booth.sessions == AT_TRIGGER.booth.sessions;
  }

  /** The first capture has issued the token and raised; the second counts down. */
  ghost predicate FirstRaised(w: World) {
    && |w.captures| == 2
    && w.captures[0].point == Raised(InvalidTransition)
    && w.captures[1] == Frame(CountdownStateSent, 0, 1, [], 0)
    && w.booth.state == COUNTDOWN && w.booth.sessionId == 1 && w.booth.cameraIdle
    && w.booth.sessions == map[1 := SessionRow(COUNTDOWN, Some(3))]
    && w.booth.captures == [CaptureRow(2, 1, true)] && w.booth.nextId == 4
  }

  /** The first capture has taken its shot while the second counts down. */
  ghost predicate FirstShot(w: World) {
    && w.captures == [Frame(FullSent, 0, 1, [2], 2), Frame(CountdownStateSent, 0, 1, [], 0)]
    && w.booth.state == COUNTDOWN && w.booth.sessionId == 1 && w.booth.cameraIdle && w.booth.queued
    && w.booth.sessions == map[1 := SessionRow(COUNTDOWN, None)]
    && w.booth.captures == [CaptureRow(2, 1, true)] && w.booth.nextId == 3 && !w.booth.templated
  }

  lemma FirstShoots()
    ensures var w := Step(AT_TRIGGER, StartCapture);
            FirstShot(Step(Step(Step(w, Wake(0, NO_PREVIEW)), Wake(0, NO_PREVIEW)), Wake(0, NO_PREVIEW)))
  {
    var w1 := Step(AT_TRIGGER, StartCapture);
    assert w1.captures == [Frame(Triggering, 0, 1, [], 0), Frame(CountdownStateSent, 0, 1, [], 0)];
    var w2 := Step(w1, Wake(0, NO_PREVIEW));
    assert w2.captures[0] == Frame(FetchingPreview, 0, 1, [], 2);
    var w3 := Step(w2, Wake(0, NO_PREVIEW));
    assert w3.captures[0] == Frame(FetchingFull, 0, 1, [], 2);
    var w4 := Step(w3, Wake(0, NO_PREVIEW));
    assert w3.captures == [Frame(FetchingFull, 0, 1, [], 2), Frame(CountdownStateSent, 0, 1, [], 0)];
    assert w4.captures[0].captureIds == [2];
    assert w4.captures == [Frame(FullSent, 0, 1, [2], 2), Frame(CountdownStateSent, 0, 1, [], 0)];
    assert w4.booth.captures == [CaptureRow(2, 1, true)];
  }

  lemma FirstReviews(w: World)
    requires FirstShot(w)
    ensures FirstRaised(Step(w, Wake(0, NO_PREVIEW)))
  {
  }

  lemma FirstRaises()
    ensures FirstRaised(Woken(Step(AT_TRIGGER, StartCapture), 0, 4))
  {
    var w := Step(AT_TRIGGER, StartCapture);
    FirstShoots();
    FourWakes(w, 0);
    FirstReviews(Step(Step(Step(w, Wake(0, NO_PREVIEW)), Wake(0, NO_PREVIEW)), Wake(0, NO_PREVIEW)));
  }

  lemma SecondShoots(w: World)
    requires FirstRaised(w)
    ensures Woken(w, 1, 5).booth.captures == [CaptureRow(2, 1, true), CaptureRow(4, 1, true)]
    ensures HasToken(Woken(w, 1, 5).booth, 1)
  {
    var w1 := Step(w, Wake(1, NO_PREVIEW));
    var w2 := Step(w1, Wake(1, NO_PREVIEW));
    var w3 := Step(w2, Wake(1, NO_PREVIEW));
    var w4 := Step(w3, Wake(1, NO_PREVIEW));
    var w5 := Step(w4, Wake(1, NO_PREVIEW));
    assert w4.captures[1].point == Triggering;
    assert Woken(w, 1, 5) == Woken(w1, 1, 4) == Woken(w2, 1, 3) == Woken(w3, 1, 2);
    assert Woken(w3, 1, 2) == Woken(w4, 1, 1) == Woken(w5, 1, 0);
  }

  lemma RunsInParts()
    ensures Run(Opening(true), OverlappingRun()) == Woken(Woken(Step(AT_TRIGGER, StartCapture), 0, 4), 1, 5)
  {
    var first, w := [ArmOk(None), StartCapture] + Wakes(0, 4), Opening(true);
    var w1 := Step(AT_TRIGGER, StartCapture);
    ReachesTrigger();
    SessionTrace.RunConcat(w, first, [StartCapture]);
    assert Run(AT_TRIGGER, [StartCapture]) == w1;
    SessionTrace.RunConcat(w, first + [StartCapture], Wakes(0, 4));
    WakesRun(w1, 0, 4);
    SessionTrace.RunConcat(w, first + [StartCapture] + Wakes(0, 4), Wakes(1, 5));
    WakesRun(Woken(w1, 0, 4), 1, 5);
  }

  lemma TwoListed()
    ensures ListBySession([CaptureRow(2, 1, true), CaptureRow(4, 1, true)], 1) == [4, 2]
  {
    var first, second := CaptureRow(2, 1, true), CaptureRow(4, 1, true);
    assert [] + [first] == [first] && [first] + [second] == [first, second];
    ListAppend([], first, 1);
    ListAppend([first], second, 1);
  }

  /** So with two captures at once a session with a token can have two deliverables. */
  lemma {:induction false} OverlapDeliversTwice()
    ensures var b := Run(Opening(true), OverlappingRun()).booth;
            HasToken(b, 1) && ListBySession(b.captures, 1) == [4, 2]
  {
    RunsInParts();
    FirstRaises();
    SecondShoots(Woken(Step(AT_TRIGGER, StartCapture), 0, 4));
    TwoListed();
  }

  /** And the condition that such a run breaks is the one under which the sharing theorems hold. */
  lemma {:induction false} OverlapIsNotExclusive()
    ensures !ExclusiveRun(Opening(true), OverlappingRun())
  {
    OverlapDeliversTwice();
    if ExclusiveRun(Opening(true), OverlappingRun()) {
      SharedSessionIsDelivered(true, OverlappingRun(), 1, "", "", "");
    }
  }
}
