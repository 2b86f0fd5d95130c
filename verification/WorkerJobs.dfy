/**
 What the workers of the pool are handed: each job with the kind and the payload it was enqueued with, and each
 worker jobs of its own kind only.
 */
module WorkerJobs {
  import opened Results
  import opened JobTable
  import opened WorkerPool
  import JobQueues

  /** The enqueues among the actions, in order. */
  function Enqueued(actions: seq<Action>): (r: seq<Action>)
    ensures forall k | 0 <= k < |r| :: r[k].Enqueue?
  {
    if |actions| == 0 then []
    else (if actions[0].Enqueue? then [actions[0]] else []) + Enqueued(actions[1..])
  }

  predicate AsEnqueued(row: Row, a: Action)
    requires a.Enqueue?
  {
    row.kind == a.jobKind && row.payload == a.payload && row.maxAttempts == a.maxAttempts
  }

  lemma StepKeepsJobs(s: Pool, a: Action)
    requires WellFormed(s)
    ensures JobQueues.SameJobs(s.rows, Step(s, a).rows)
    ensures |Step(s, a).rows| == |s.rows| + (if a.Enqueue? then 1 else 0)
    ensures a.Enqueue? ==> AsEnqueued(Step(s, a).rows[|s.rows|], a)
  {
    if a.Claim? && a.w < |s.workers| {
      NextJobIsOldestEligible(s.rows, s.clock, Some(s.workers[a.w].kind));
    }
  }

  /** The rows that a run adds are its enqueues in order, and they keep kind, payload and limit. */
  ghost predicate RowsOfRun(before: Table, after: Table, enqueued: seq<Action>)
    requires forall k | 0 <= k < |enqueued| :: enqueued[k].Enqueue?
  {
    && JobQueues.SameJobs(before, after) && |after| == |before| + |enqueued|
    && forall k | 0 <= k < |enqueued| :: AsEnqueued(after[|before| + k], enqueued[k])
  }

  lemma {:induction false} RowsAreEnqueues(s: Pool, actions: seq<Action>)
    requires WellFormed(s)
    ensures RowsOfRun(s.rows, Run(s, actions).rows, Enqueued(actions))
    decreases |actions|
  {
    if |actions| > 0 {
      StepKeepsJobs(s, actions[0]);
      RowsAreEnqueues(Step(s, actions[0]), actions[1..]);
    }
  }

  // ---------------------------------------------------------------- workers and kinds

  ghost predicate OwnKind(s: Pool, w: nat)
    requires w < |s.workers|
  {
    match s.workers[w].activity
    case Idle => true
    case Handling(id) => id < |s.rows| && s.rows[id].kind == s.workers[w].kind
    case Trying(_, ids) => forall k | 0 <= k < |ids| :: ids[k] < |s.rows| && s.rows[ids[k]].kind == s.workers[w].kind
  }

  ghost predicate OwnKinds(s: Pool) {
    forall w | 0 <= w < |s.workers| :: OwnKind(s, w)
  }

  lemma OtherKeepsKind(s: Pool, r: Pool, w: nat)
    requires w < |s.workers| && w < |r.workers| && OwnKind(s, w) && r.workers[w] == s.workers[w]
    requires JobQueues.SameJobs(s.rows, r.rows)
    ensures OwnKind(r, w)
  {
  }

  lemma SameWorkerKeepsKind(s: Pool, a: Action, w: nat)
    requires Inv(s) && OwnKinds(s) && w < |s.workers|
    requires a.Select? || a.TryClaim? || a.Claim? || a.Succeed? || a.Raise?
    requires a.w == w
    ensures w < |Step(s, a).workers| && OwnKind(Step(s, a), w)
  {
    assert OwnKind(s, w);
    StepKeepsJobs(s, a);
    NextJobIsOldestEligible(s.rows, s.clock, Some(s.workers[w].kind));
    if a.Select? {
      var ids := Candidates(s.rows, s.clock, Some(s.workers[w].kind));
      assert forall k | 0 <= k < |ids| :: Eligible(s.rows[ids[k]], s.clock, Some(s.workers[w].kind));
    }
  }

  lemma StepKeepsKinds(s: Pool, a: Action)
    requires Inv(s) && OwnKinds(s)
    ensures OwnKinds(Step(s, a))
  {
    var r := Step(s, a);
    StepKeepsJobs(s, a);
    forall w | 0 <= w < |r.workers| ensures OwnKind(r, w) {
      if w < |s.workers| {
        if (a.Select? || a.TryClaim? || a.Claim? || a.Succeed? || a.Raise?) && a.w == w {
          SameWorkerKeepsKind(s, a, w);
        } else {
          OtherKeepsKind(s, r, w);
        }
      }
    }
  }

  lemma {:induction false} RunKeepsKinds(s: Pool, actions: seq<Action>)
    requires Inv(s) && OwnKinds(s)
    ensures OwnKinds(Run(s, actions))
    decreases |actions|
  {
    if |actions| > 0 {
      StepKeepsInv(s, actions[0]);
      StepKeepsKinds(s, actions[0]);
      RunKeepsKinds(Step(s, actions[0]), actions[1..]);
    }
  }

  /** In every run, a handler that is running was called with the kind, which is its worker's, and the payload that
      its job was enqueued with. */
  lemma {:induction false} HandlersGetWhatWasEnqueued(actions: seq<Action>, w: nat)
    requires w < |Run(EMPTY, actions).workers| && Run(EMPTY, actions).workers[w].activity.Handling?
    ensures var s := Run(EMPTY, actions);
            var id := s.workers[w].activity.id;
            && id < |s.rows| && id < |Enqueued(actions)|
            && JobQueues.JobOf(s.rows, id).id == id
            && JobQueues.JobOf(s.rows, id).kind == Enqueued(actions)[id].jobKind == s.workers[w].kind
            && JobQueues.JobOf(s.rows, id).payload == Enqueued(actions)[id].payload
  {
    var s := Run(EMPTY, actions);
    RowsAreEnqueues(EMPTY, actions);
    RunKeepsKinds(EMPTY, actions);
    var id := s.workers[w].activity.id;
    assert OwnKind(s, w);
    assert AsEnqueued(s.rows[|EMPTY.rows| + id], Enqueued(actions)[id]);
  }
}
