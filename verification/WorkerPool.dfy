/**
 Any number of `run_worker` loops over one jobs table, as a step system.  A worker is suspended only
 while it sleeps or while its handler runs, so `claim` is one step; the steps Select and TryClaim split
 it into its SELECT and its UPDATEs, for the property that must survive the split.  A step that cannot
 be taken leaves the pool as it is, so every sequence of actions is a run.
 */
module WorkerPool {
  import opened Results
  import opened JobTable
  import JobQueues

  datatype Activity =
    | Idle
    | Trying(selectedAt: real, candidates: seq<JobId>)
    | Handling(id: JobId)

  datatype Worker = Worker(kind: string, activity: Activity)

  /** What happened to a job so far; the program does not store it. */
  datatype History = History(handled: nat, holder: Option<nat>, firstClaim: Option<real>, deadAt: Option<real>)

  datatype Pool = Pool(rows: Table, history: seq<History>, workers: seq<Worker>, clock: real)

  datatype Action =
    | Spawn(kind: string)
    | Enqueue(jobKind: string, payload: map<string, string>, maxAttempts: int)
    | Tick(to: real)
    | Select(w: nat)
    | TryClaim(w: nat)
    | Claim(w: nat)
    | Succeed(w: nat)
    | Raise(w: nat, error: string)

  const EMPTY: Pool := Pool([], [], [], 0.0)

  predicate WellFormed(s: Pool) {
    |s.history| == |s.rows|
  }

  function SetActivity(s: Pool, w: nat, activity: Activity): seq<Worker>
    requires w < |s.workers|
  {
    s.workers[w := s.workers[w].(activity := activity)]
  }

  /** Worker `w` has won job `id` and its handler starts. */
  function Take(s: Pool, w: nat, id: JobId, now: real): Pool
    requires WellFormed(s) && w < |s.workers| && id < |s.rows|
  {
    var h := s.history[id];
    s.(rows := ClaimAt(s.rows, id, now),
       workers := SetActivity(s, w, Handling(id)),
       history := s.history[id := h.(handled := h.handled + 1, holder := Some(w),
                                     firstClaim := if h.firstClaim.Some? then h.firstClaim else Some(s.clock))])
  }

  /** The handler of worker `w` ended and the row was updated to `rows`. */
  function Settle(s: Pool, w: nat, id: JobId, rows: Table): Pool
    requires WellFormed(s) && w < |s.workers| && id < |s.rows| && |rows| == |s.rows|
  {
    var h := s.history[id].(holder := None);
    s.(rows := rows,
       workers := SetActivity(s, w, Idle),
       history := s.history[id := if rows[id].status.Dead? then h.(deadAt := Some(s.clock)) else h])
  }

  function Step(s: Pool, a: Action): (r: Pool)
    requires WellFormed(s)
    ensures WellFormed(r)
  {
    match a
    case Spawn(kind) => s.(workers := s.workers + [Worker(kind, Idle)])
    case Enqueue(kind, payload, maxAttempts) =>
      s.(rows := s.rows + [NewRow(kind, payload, maxAttempts, s.clock)],
         history := s.history + [History(0, None, None, None)])
    case Tick(to) => s.(clock := to)
    case Select(w) =>
      if w < |s.workers| && s.workers[w].activity.Idle? then
        var ids := Candidates(s.rows, s.clock, Some(s.workers[w].kind));
        s.(workers := SetActivity(s, w, Trying(s.clock, ids)))
      else s
    case TryClaim(w) =>
      if w < |s.workers| && s.workers[w].activity.Trying? then
        var t := s.workers[w].activity;
        if |t.candidates| == 0 then s.(workers := SetActivity(s, w, Idle))
        else
          var id := t.candidates[0];
          if id < |s.rows| && s.rows[id].status.Pending? then Take(s, w, id, t.selectedAt)
          else s.(workers := SetActivity(s, w, t.(candidates := t.candidates[1..])))
      else s
    case Claim(w) =>
      if w < |s.workers| && s.workers[w].activity.Idle? then
        NextJobIsOldestEligible(s.rows, s.clock, Some(s.workers[w].kind));
        var next := NextJob(s.rows, s.clock, Some(s.workers[w].kind));
        if next.None? then s else Take(s, w, next.value, s.clock)
      else s
    case Succeed(w) =>
      if w < |s.workers| && s.workers[w].activity.Handling? && s.workers[w].activity.id < |s.rows| then
        var id := s.workers[w].activity.id;
        Settle(s, w, id, CompleteAt(s.rows, id, s.clock))
      else s
    case Raise(w, error) =>
      if w < |s.workers| && s.workers[w].activity.Handling? && s.workers[w].activity.id < |s.rows| then
        var id := s.workers[w].activity.id;
        Settle(s, w, id, FailAt(s.rows, id, error, DEFAULT_BACKOFF_BASE_S, s.clock))
      else s
  }

  function Run(s: Pool, actions: seq<Action>): (r: Pool)
    requires WellFormed(s)
    ensures WellFormed(r)
    decreases |actions|
  {
    if |actions| == 0 then s else Run(Step(s, actions[0]), actions[1..])
  }

  // ---------------------------------------------------------------- safety

  ghost predicate HoldersAgree(s: Pool)
    requires WellFormed(s)
  {
    && (forall w | 0 <= w < |s.workers| && s.workers[w].activity.Handling? ::
          && s.workers[w].activity.id < |s.rows|
          && s.history[s.workers[w].activity.id].holder == Some(w))
    && (forall i | 0 <= i < |s.rows| ::
          && (s.rows[i].status.Claimed? <==> s.history[i].holder.Some?)
          && (s.history[i].holder.Some? ==>
                && s.history[i].holder.value < |s.workers|
                && s.workers[s.history[i].holder.value].activity == Handling(i)))
  }

  ghost predicate CountsAgree(s: Pool)
    requires WellFormed(s)
  {
    forall i | 0 <= i < |s.rows| ::
      && SoundRow(s.rows[i])
      && s.history[i].handled == s.rows[i].attempts + (if s.rows[i].status in {Claimed, Done} then 1 else 0)
      && (s.history[i].firstClaim.Some? <==> s.history[i].handled > 0)
      && (s.history[i].deadAt.Some? <==> s.rows[i].status.Dead?)
  }

  ghost predicate Inv(s: Pool) {
    WellFormed(s) && HoldersAgree(s) && CountsAgree(s)
  }

  lemma TakeKeepsInv(s: Pool, w: nat, id: JobId, now: real)
    requires Inv(s) && w < |s.workers| && !s.workers[w].activity.Handling?
    requires id < |s.rows| && s.rows[id].status.Pending?
    ensures Inv(Take(s, w, id, now))
  {
    var r := Take(s, w, id, now);
    assert forall v | 0 <= v < |r.workers| && v != w :: r.workers[v] == s.workers[v];
    assert forall i | 0 <= i < |r.rows| && i != id :: r.rows[i] == s.rows[i] && r.history[i] == s.history[i];
    assert HoldersAgree(r);
    assert CountsAgree(r);
  }

  lemma SettleKeepsInv(s: Pool, w: nat, id: JobId, rows: Table)
    requires Inv(s) && w < |s.workers| && s.workers[w].activity == Handling(id)
    requires id < |s.rows| && |rows| == |s.rows|
    requires forall i | 0 <= i < |rows| && i != id :: rows[i] == s.rows[i]
    requires !rows[id].status.Claimed? && SoundRow(rows[id])
    requires rows[id].attempts == s.rows[id].attempts + (if rows[id].status.Done? then 0 else 1)
    ensures Inv(Settle(s, w, id, rows))
  {
    var r := Settle(s, w, id, rows);
    assert forall v | 0 <= v < |r.workers| && v != w :: r.workers[v] == s.workers[v];
    assert forall i | 0 <= i < |r.rows| && i != id :: r.rows[i] == s.rows[i] && r.history[i] == s.history[i];
    assert HoldersAgree(r);
    assert CountsAgree(r);
  }

  lemma ClaimKeepsInv(s: Pool, w: nat)
    requires Inv(s)
    ensures Inv(Step(s, Claim(w)))
  {
    if Step(s, Claim(w)) != s {
      var kind := Some(s.workers[w].kind);
      NextJobIsOldestEligible(s.rows, s.clock, kind);
      TakeKeepsInv(s, w, NextJob(s.rows, s.clock, kind).value, s.clock);
    }
  }

  lemma TryClaimKeepsInv(s: Pool, w: nat)
    requires Inv(s)
    ensures Inv(Step(s, TryClaim(w)))
  {
    if w < |s.workers| && s.workers[w].activity.Trying? {
      var t := s.workers[w].activity;
      if |t.candidates| > 0 && t.candidates[0] < |s.rows| && s.rows[t.candidates[0]].status.Pending? {
        TakeKeepsInv(s, w, t.candidates[0], t.selectedAt);
      } else {
        QuietStepKeepsInv(s, Step(s, TryClaim(w)));
      }
    }
  }

  lemma EndKeepsInv(s: Pool, a: Action)
    requires Inv(s) && (a.Succeed? || a.Raise?)
    ensures Inv(Step(s, a))
  {
    if Step(s, a) != s {
      var id := s.workers[a.w].activity.id;
      assert s.history[id].holder == Some(a.w);
      if a.Succeed? {
        SettleKeepsInv(s, a.w, id, CompleteAt(s.rows, id, s.clock));
      } else {
        SettleKeepsInv(s, a.w, id, FailAt(s.rows, id, a.error, DEFAULT_BACKOFF_BASE_S, s.clock));
      }
    }
  }

  lemma EnqueueKeepsInv(s: Pool, a: Action)
    requires Inv(s) && a.Enqueue?
    ensures Inv(Step(s, a))
  {
    assert HoldersAgree(Step(s, a));
  }

  lemma StepKeepsInv(s: Pool, a: Action)
    requires Inv(s)
    ensures Inv(Step(s, a))
  {
    match a
    case Claim(w) => ClaimKeepsInv(s, w);
    case TryClaim(w) => TryClaimKeepsInv(s, w);
    case Succeed(_) => EndKeepsInv(s, a);
    case Raise(_, _) => EndKeepsInv(s, a);
    case Enqueue(_, _, _) => EnqueueKeepsInv(s, a);
    case _ => QuietStepKeepsInv(s, Step(s, a));
  }

  /** A step that neither touches the table nor starts or ends a handler. */
  lemma QuietStepKeepsInv(s: Pool, r: Pool)
    requires Inv(s) && r.rows == s.rows && r.history == s.history && |s.workers| <= |r.workers|
    requires forall w | 0 <= w < |r.workers| && r.workers[w].activity.Handling? ::
               w < |s.workers| && r.workers[w].activity == s.workers[w].activity
    requires forall w | 0 <= w < |s.workers| && s.workers[w].activity.Handling? ::
               r.workers[w].activity == s.workers[w].activity
    ensures Inv(r)
  {
  }

  lemma {:induction false} RunKeepsInv(s: Pool, actions: seq<Action>)
    requires Inv(s)
    ensures Inv(Run(s, actions))
    decreases |actions|
  {
    if |actions| > 0 {
      StepKeepsInv(s, actions[0]);
      RunKeepsInv(Step(s, actions[0]), actions[1..]);
    }
  }

  /** No interleaving of any number of workers, even with `claim` split between its SELECT and its
      UPDATE, lets two of them hold one job; and a claimed job is held by exactly one. */
  lemma {:induction false} MutualExclusion(actions: seq<Action>)
    ensures var s := Run(EMPTY, actions);
            && (forall v, w | 0 <= v < w < |s.workers| &&
                              s.workers[v].activity.Handling? && s.workers[w].activity.Handling? ::
                  s.workers[v].activity.id != s.workers[w].activity.id)
            && (forall i | 0 <= i < |s.rows| && s.rows[i].status.Claimed? ::
                  exists w :: 0 <= w < |s.workers| && s.workers[w].activity == Handling(i))
            && (forall w | 0 <= w < |s.workers| && s.workers[w].activity.Handling? ::
                  && s.workers[w].activity.id < |s.rows|
                  && s.rows[s.workers[w].activity.id].status.Claimed?)
  {
    RunKeepsInv(EMPTY, actions);
  }

  /** Every handler run is accounted for; a job is handled at most max(1, max_attempts) times, a dead
      one exactly that often. */
  lemma {:induction false} AttemptAccounting(actions: seq<Action>, i: JobId)
    requires i < |Run(EMPTY, actions).rows|
    ensures var s := Run(EMPTY, actions);
            s.history[i].handled == s.rows[i].attempts + (if s.rows[i].status in {Claimed, Done} then 1 else 0) &&
            var atMost := if s.rows[i].maxAttempts >= 1 then s.rows[i].maxAttempts else 1;
            && s.history[i].handled <= atMost
            && (s.rows[i].status.Dead? ==>
                  s.rows[i].attempts >= s.rows[i].maxAttempts && s.history[i].handled == atMost)
  {
    RunKeepsInv(EMPTY, actions);
  }

  // ---------------------------------------------------------------- the split and the loop

  /** SELECT and UPDATE with nothing in between are the one step Claim. */
  lemma {:induction false} UninterruptedSplitIsClaim(s: Pool, w: nat)
    requires WellFormed(s) && w < |s.workers| && s.workers[w].activity.Idle?
    ensures Step(Step(s, Select(w)), TryClaim(w)) == Step(s, Claim(w))
  {
    var kind := Some(s.workers[w].kind);
    NextJobIsOldestEligible(s.rows, s.clock, kind);
    var t := Step(s, Select(w));
    assert t.workers[w].kind == s.workers[w].kind;
    if |Candidates(s.rows, s.clock, kind)| == 0 {
      assert SetActivity(t, w, Idle) == s.workers;
    } else {
      var id := Candidates(s.rows, s.clock, kind)[0];
      assert SetActivity(t, w, Handling(id)) == SetActivity(s, w, Handling(id));
    }
  }

  lemma {:induction false} RunConcat(s: Pool, first: seq<Action>, second: seq<Action>)
    requires WellFormed(s)
    ensures Run(s, first + second) == Run(Run(s, first), second)
    decreases |first|
  {
    if |first| == 0 {
      assert first + second == second;
    } else {
      assert (first + second)[1..] == first[1..] + second;
      RunConcat(Step(s, first[0]), first[1..], second);
    }
  }

  // ---------------------------------------------------------------- the worker loop is a worker of the pool

  /** A step of the rest of the program while worker `w` is suspended; `claim` is one step. */
  predicate ByOthers(a: Action, w: nat) {
    match a
    case Select(_) => false
    case TryClaim(_) => false
    case Claim(v) => v != w
    case Succeed(v) => v != w
    case Raise(v, _) => v != w
    case _ => true
  }

  predicate AllByOthers(actions: seq<Action>, w: nat) {
    forall i | 0 <= i < |actions| :: ByOthers(actions[i], w)
  }

  /** The call on the queue that a step makes, if it makes one. */
  function CallOf(s: Pool, a: Action): seq<JobQueues.Call>
    requires WellFormed(s)
  {
    match a
    case Enqueue(kind, payload, maxAttempts) => [JobQueues.EnqueueCall(kind, payload, maxAttempts, s.clock)]
    case Claim(v) =>
      if v < |s.workers| && s.workers[v].activity.Idle?
      then [JobQueues.ClaimCall(Some(s.workers[v].kind), s.clock)] else []
    case Succeed(v) =>
      if v < |s.workers| && s.workers[v].activity.Handling?
      then [JobQueues.CompleteCall(s.workers[v].activity.id, s.clock)] else []
    case Raise(v, error) =>
      if v < |s.workers| && s.workers[v].activity.Handling?
      then [JobQueues.FailCall(s.workers[v].activity.id, error, DEFAULT_BACKOFF_BASE_S, s.clock)] else []
    case _ => []
  }

  function CallsOf(s: Pool, actions: seq<Action>): seq<JobQueues.Call>
    requires WellFormed(s)
    decreases |actions|
  {
    if |actions| == 0 then [] else CallOf(s, actions[0]) + CallsOf(Step(s, actions[0]), actions[1..])
  }

  lemma StepOfOthers(s: Pool, w: nat, a: Action)
    requires Inv(s) && w < |s.workers| && ByOthers(a, w)
    ensures Step(s, a).rows == JobQueues.CalledAll(s.rows, CallOf(s, a))
    ensures |Step(s, a).workers| >= |s.workers| && Step(s, a).workers[w] == s.workers[w]
  {
    var calls := CallOf(s, a);
    if |calls| == 1 {
      assert calls[1..] == [];
      assert JobQueues.CalledAll(s.rows, calls) == JobQueues.Called(s.rows, calls[0]);
    }
    if a.Claim? && |calls| == 1 {
      NextJobIsOldestEligible(s.rows, s.clock, Some(s.workers[a.w].kind));
    }
  }

  lemma {:induction false} CalledConcat(rows: Table, first: seq<JobQueues.Call>, second: seq<JobQueues.Call>)
    ensures JobQueues.CalledAll(rows, first + second) == JobQueues.CalledAll(JobQueues.CalledAll(rows, first), second)
    decreases |first|
  {
    if |first| == 0 {
      assert first + second == second;
    } else {
      assert (first + second)[1..] == first[1..] + second;
      CalledConcat(JobQueues.Called(rows, first[0]), first[1..], second);
    }
  }

  lemma {:induction false} RunOfOthers(s: Pool, w: nat, actions: seq<Action>)
    requires Inv(s) && w < |s.workers| && AllByOthers(actions, w)
    ensures var r := Run(s, actions);
            && Inv(r) && r.rows == JobQueues.CalledAll(s.rows, CallsOf(s, actions))
            && |r.workers| >= |s.workers| && r.workers[w] == s.workers[w]
    decreases |actions|
  {
    if |actions| > 0 {
      StepKeepsInv(s, actions[0]);
      StepOfOthers(s, w, actions[0]);
      RunOfOthers(Step(s, actions[0]), w, actions[1..]);
      CalledConcat(s.rows, CallOf(s, actions[0]), CallsOf(Step(s, actions[0]), actions[1..]));
    }
  }

  /** One pass of the loop with what the rest of the program does meanwhile, clock ticks included. */
  datatype Round = Round(others: seq<Action>, error: Option<string>)

  function Settling(w: nat, error: Option<string>): Action {
    if error.None? then Succeed(w) else Raise(w, error.value)
  }

  function RoundActions(w: nat, round: Round): seq<Action> {
    [Claim(w)] + (round.others + [Settling(w, round.error)])
  }

  function TurnOf(s: Pool, w: nat, round: Round): JobQueues.Turn
    requires WellFormed(s)
  {
    var claimed := Step(s, Claim(w));
    JobQueues.Turn(s.clock, CallsOf(claimed, round.others), round.error, Run(claimed, round.others).clock)
  }

  /** One pass of the `run_worker` method, whatever the rest of the program does during its await, is what the
      pool does when worker `w` claims, the others act, and `w` settles. */
  lemma {:induction false} TurnIsPoolRun(s: Pool, w: nat, round: Round)
    requires Inv(s) && w < |s.workers| && s.workers[w].activity.Idle? && AllByOthers(round.others, w)
    ensures var r := Run(s, RoundActions(w, round));
            && Inv(r) && r.rows == JobQueues.OneTurn(s.rows, s.workers[w].kind, TurnOf(s, w, round))
            && w < |r.workers| && r.workers[w] == s.workers[w]
  {
    var claimed := Step(s, Claim(w));
    var settling := Settling(w, round.error);
    NextJobIsOldestEligible(s.rows, s.clock, Some(s.workers[w].kind));
    StepKeepsInv(s, Claim(w));
    RunOfOthers(claimed, w, round.others);
    var suspended := Run(claimed, round.others);
    StepKeepsInv(suspended, settling);
    assert RoundActions(w, round)[1..] == round.others + [settling];
    RunConcat(claimed, round.others, [settling]);
    assert Run(suspended, [settling]) == Step(suspended, settling);
    SettlingSettles(s, w, claimed, suspended, TurnOf(s, w, round));
  }

  lemma SettlingSettles(s: Pool, w: nat, claimed: Pool, suspended: Pool, turn: JobQueues.Turn)
    requires Inv(s) && w < |s.workers| && s.workers[w].activity.Idle?
    requires claimed == Step(s, Claim(w)) && Inv(suspended)
    requires suspended.rows == JobQueues.CalledAll(claimed.rows, turn.meanwhile)
    requires turn.polledAt == s.clock && turn.settledAt == suspended.clock
    requires w < |suspended.workers| && w < |claimed.workers| && suspended.workers[w] == claimed.workers[w]
    ensures var r := Step(suspended, Settling(w, turn.error));
            && r.rows == JobQueues.OneTurn(s.rows, s.workers[w].kind, turn)
            && w < |r.workers| && r.workers[w] == s.workers[w]
  {
    var next := NextJob(s.rows, s.clock, Some(s.workers[w].kind));
    if next.Some? {
      ClaimTakes(s, w);
      SettleOne(suspended, w, next.value, turn);
    }
  }

  lemma ClaimTakes(s: Pool, w: nat)
    requires WellFormed(s) && w < |s.workers| && s.workers[w].activity.Idle?
    requires NextJob(s.rows, s.clock, Some(s.workers[w].kind)).Some?
    ensures var id := NextJob(s.rows, s.clock, Some(s.workers[w].kind)).value;
            var r := Step(s, Claim(w));
            && r.rows == ClaimAt(s.rows, id, s.clock)
            && |r.workers| == |s.workers| && r.workers[w] == Worker(s.workers[w].kind, Handling(id))
  {
    NextJobIsOldestEligible(s.rows, s.clock, Some(s.workers[w].kind));
  }

  lemma SettleOne(s: Pool, w: nat, id: JobId, turn: JobQueues.Turn)
    requires Inv(s) && w < |s.workers| && s.workers[w].activity == Handling(id) && turn.settledAt == s.clock
    ensures var r := Step(s, Settling(w, turn.error));
            && r.rows == JobQueues.Settled(s.rows, id, turn)
            && w < |r.workers| && r.workers[w] == Worker(s.workers[w].kind, Idle)
  {
    assert id < |s.rows|;
  }

  function AllRoundActions(w: nat, rounds: seq<Round>): seq<Action>
    decreases |rounds|
  {
    if |rounds| == 0 then [] else RoundActions(w, rounds[0]) + AllRoundActions(w, rounds[1..])
  }

  function TurnsOf(s: Pool, w: nat, rounds: seq<Round>): seq<JobQueues.Turn>
    requires WellFormed(s)
    decreases |rounds|
  {
    if |rounds| == 0 then []
    else [TurnOf(s, w, rounds[0])] + TurnsOf(Run(s, RoundActions(w, rounds[0])), w, rounds[1..])
  }

  /** So the `run_worker` method among any other workers, enqueues and clock ticks does what a worker of the pool
      does, and all that is proved of pools holds of it. */
  lemma {:induction false} WorkerLoopIsPoolRun(s: Pool, w: nat, rounds: seq<Round>)
    requires Inv(s) && w < |s.workers| && s.workers[w].activity.Idle?
    requires forall i | 0 <= i < |rounds| :: AllByOthers(rounds[i].others, w)
    ensures Run(s, AllRoundActions(w, rounds)).rows
         == JobQueues.Worked(s.rows, s.workers[w].kind, TurnsOf(s, w, rounds))
    decreases |rounds|
  {
    if |rounds| > 0 {
      var r := Run(s, RoundActions(w, rounds[0]));
      TurnIsPoolRun(s, w, rounds[0]);
      RunConcat(s, RoundActions(w, rounds[0]), AllRoundActions(w, rounds[1..]));
      WorkerLoopIsPoolRun(r, w, rounds[1..]);
      assert TurnsOf(s, w, rounds)[1..] == TurnsOf(r, w, rounds[1..]);
    }
  }
}
