/**
 The per-session print limit of printing/queue.py on top of the jobs table, and the runs in which print
 jobs enter the table only through `PrintQueue.submit`.
 */
module PrintPolicy {
  import opened Results
  import opened JobTable
  import opened TableSums
  import opened JobQueues
  import WorkerPool

  datatype LimitExceeded = LimitExceeded(session: string, used: nat, limit: int)

  /** kind = 'print' AND json_extract(payload_json, '$.session_id') = ?, whatever the status. */
  predicate PrintedFor(row: Row, session: string) {
    row.kind == "print" && "session_id" in row.payload && row.payload["session_id"] == session
  }

  function CountWeight(session: string): Row -> nat {
    (row: Row) => if PrintedFor(row, session) then 1 else 0
  }

  function CountForSession(rows: Table, session: string): nat {
    Total(rows, |rows|, CountWeight(session))
  }

  function Remaining(rows: Table, session: string, limit: int): nat {
    var left := limit - CountForSession(rows, session);
    if left > 0 then left else 0
  }

  function PrintPayload(imagePath: string, session: string): map<string, string> {
    map["image_path" := imagePath, "session_id" := session]
  }

  function Submitted(rows: Table, imagePath: string, session: string, maxAttempts: int, limit: int, now: real): Table {
    if CountForSession(rows, session) >= limit then rows
    else rows + [NewRow("print", PrintPayload(imagePath, session), maxAttempts, now)]
  }

  class PrintQueue {
    const queue: JobQueue
    const limit: int

    constructor (queue: JobQueue, limit: int)
      ensures this.queue == queue && this.limit == limit
    {
      this.queue := queue;
      this.limit := limit;
    }

    method Submit(imagePath: string, session: string, maxAttempts: int, now: real)
      returns (r: Result<JobId, LimitExceeded>)
      modifies queue
      ensures queue.rows == Submitted(old(queue.rows), imagePath, session, maxAttempts, limit, now)
      ensures r.Ok? <==> Remaining(old(queue.rows), session, limit) > 0
      ensures r.Ok? ==>
                && r.value == |old(queue.rows)| && |queue.rows| == r.value + 1
                && queue.rows[..r.value] == old(queue.rows)
                && var job := queue.rows[r.value];
                   && job.kind == "print" && job.maxAttempts == maxAttempts
                   && job.payload == map["image_path" := imagePath, "session_id" := session]
                   && job.status == Pending && job.attempts == 0 && job.nextAttemptAt == now && job.createdAt == now
      ensures r.Err? ==> queue.rows == old(queue.rows)
      ensures r.Err? ==> r.error == LimitExceeded(session, CountForSession(old(queue.rows), session), limit)
    {
      var used := CountForSession(queue.rows, session);
      if used >= limit {
        return Err(LimitExceeded(session, used, limit));
      }
      var id := queue.Enqueue("print", PrintPayload(imagePath, session), maxAttempts, now);
      return Ok(id);
    }

    method RemainingForSession(session: string) returns (left: nat)
      ensures left == Remaining(queue.rows, session, limit)
      ensures left == 0 <==> CountForSession(queue.rows, session) >= limit
      ensures left > 0 ==> left + CountForSession(queue.rows, session) == limit
    {
      left := Remaining(queue.rows, session, limit);
    }
  }

  function JobsPrintedFor(rows: Table, session: string, upTo: nat): set<JobId>
    requires upTo <= |rows|
  {
    set i: JobId | i < upTo && rows[i].kind == "print" && "session_id" in rows[i].payload
                   && rows[i].payload["session_id"] == session
  }

  lemma OneMoreJob(rows: Table, session: string, upTo: nat)
    requires 0 < upTo <= |rows|
    ensures JobsPrintedFor(rows, session, upTo) == JobsPrintedFor(rows, session, upTo - 1)
                                                  + if PrintedFor(rows[upTo - 1], session) then {upTo - 1} else {}
  {
  }

  /** The count is the number of print jobs that name the session, whatever has become of them. */
  lemma {:induction false} CountIsNumberOfJobs(rows: Table, session: string, upTo: nat)
    requires upTo <= |rows|
    ensures Total(rows, upTo, CountWeight(session)) == |JobsPrintedFor(rows, session, upTo)|
    ensures upTo == |rows| ==> CountForSession(rows, session) == |JobsPrintedFor(rows, session, upTo)|
    decreases upTo
  {
    if upTo > 0 {
      CountIsNumberOfJobs(rows, session, upTo - 1);
      OneMoreJob(rows, session, upTo);
      assert upTo - 1 !in JobsPrintedFor(rows, session, upTo - 1);
    } else {
      assert JobsPrintedFor(rows, session, 0) == {};
    }
  }

  lemma {:induction false} CountAppend(rows: Table, row: Row, session: string)
    ensures CountForSession(rows + [row], session)
         == CountForSession(rows, session) + (if PrintedFor(row, session) then 1 else 0)
  {
    TotalOfPrefix(rows, [row], |rows|, CountWeight(session));
    assert (rows + [row])[|rows|] == row;
  }

  /** A submission is accepted exactly when prints remain, then uses up one for that session and none for
      any other; a refused one changes nothing. */
  lemma {:induction false} SubmitUsesOne(rows: Table, imagePath: string, session: string, maxAttempts: int,
                                         limit: int, now: real, other: string)
    ensures var after := Submitted(rows, imagePath, session, maxAttempts, limit, now);
            && (after != rows <==> Remaining(rows, session, limit) > 0)
            && (after != rows ==> Remaining(after, session, limit) == Remaining(rows, session, limit) - 1)
            && (other != session ==> Remaining(after, other, limit) == Remaining(rows, other, limit))
  {
    var row := NewRow("print", PrintPayload(imagePath, session), maxAttempts, now);
    CountAppend(rows, row, session);
    CountAppend(rows, row, other);
    assert |rows + [row]| == |rows| + 1;
  }

  // ---------------------------------------------------------------- whole runs

  datatype DeskAction =
    | Work(action: WorkerPool.Action)
    | Submit(imagePath: string, session: string, maxAttempts: int)

  function DeskStep(s: WorkerPool.Pool, a: DeskAction, limit: int): (r: WorkerPool.Pool)
    requires WorkerPool.WellFormed(s)
    ensures WorkerPool.WellFormed(r)
    ensures a.Submit? ==> r.rows == Submitted(s.rows, a.imagePath, a.session, a.maxAttempts, limit, s.clock)
  {
    match a
    case Work(action) => WorkerPool.Step(s, action)
    case Submit(imagePath, session, maxAttempts) =>
      if CountForSession(s.rows, session) >= limit then s
      else WorkerPool.Step(s, WorkerPool.Enqueue("print", PrintPayload(imagePath, session), maxAttempts))
  }

  function DeskRun(s: WorkerPool.Pool, actions: seq<DeskAction>, limit: int): WorkerPool.Pool
    requires WorkerPool.WellFormed(s)
    decreases |actions|
  {
    if |actions| == 0 then s else DeskRun(DeskStep(s, actions[0], limit), actions[1..], limit)
  }

  /** Print jobs come from `submit` only. */
  predicate OnlySubmitPrints(actions: seq<DeskAction>) {
    forall a | a in actions :: a.Work? && a.action.Enqueue? ==> a.action.jobKind != "print"
  }

  /** No claim, completion, failure or dead-letter, and no job of another kind, changes a session's count. */
  lemma {:induction false} WorkKeepsCounts(s: WorkerPool.Pool, a: WorkerPool.Action, session: string)
    requires WorkerPool.WellFormed(s)
    requires a.Enqueue? ==> a.jobKind != "print"
    ensures CountForSession(WorkerPool.Step(s, a).rows, session) == CountForSession(s.rows, session)
  {
    var r := WorkerPool.Step(s, a);
    match a
    case Enqueue(kind, payload, maxAttempts) =>
      CountAppend(s.rows, NewRow(kind, payload, maxAttempts, s.clock), session);
    case Claim(w) =>
      if r.rows != s.rows {
        NextJobIsOldestEligible(s.rows, s.clock, Some(s.workers[w].kind));
        var id := NextJob(s.rows, s.clock, Some(s.workers[w].kind)).value;
        TotalUpdate(s.rows, |s.rows|, CountWeight(session), id, r.rows[id]);
      }
    case TryClaim(w) =>
      if r.rows != s.rows {
        var id := s.workers[w].activity.candidates[0];
        TotalUpdate(s.rows, |s.rows|, CountWeight(session), id, r.rows[id]);
      }
    case Succeed(w) =>
      if r.rows != s.rows {
        var id := s.workers[w].activity.id;
        TotalUpdate(s.rows, |s.rows|, CountWeight(session), id, r.rows[id]);
      }
    case Raise(w, error) =>
      if r.rows != s.rows {
        var id := s.workers[w].activity.id;
        TotalUpdate(s.rows, |s.rows|, CountWeight(session), id, r.rows[id]);
      }
    case _ =>
  }

  /** In every run no session ever has more print jobs than max(0, limit), dead ones included. */
  lemma {:induction false} LimitHolds(s: WorkerPool.Pool, actions: seq<DeskAction>, limit: int, session: string)
    requires WorkerPool.WellFormed(s) && OnlySubmitPrints(actions)
    requires CountForSession(s.rows, session) <= (if limit > 0 then limit else 0)
    ensures CountForSession(DeskRun(s, actions, limit).rows, session) <= (if limit > 0 then limit else 0)
    decreases |actions|
  {
    if |actions| > 0 {
      match actions[0] {
        case Work(action) =>
          assert actions[0] in actions;
          WorkKeepsCounts(s, action, session);
        case Submit(imagePath, owner, maxAttempts) =>
          CountAppend(s.rows, NewRow("print", PrintPayload(imagePath, owner), maxAttempts, s.clock), session);
      }
      LimitHolds(DeskStep(s, actions[0], limit), actions[1..], limit, session);
    }
  }

  /** The pool starts with an empty table, so the limit holds from then on. */
  lemma {:induction false} LimitHoldsFromStart(actions: seq<DeskAction>, limit: int, session: string)
    requires OnlySubmitPrints(actions)
    ensures CountForSession(DeskRun(WorkerPool.EMPTY, actions, limit).rows, session) <= (if limit > 0 then limit else 0)
  {
    LimitHolds(WorkerPool.EMPTY, actions, limit, session);
  }

  // ---------------------------------------------------------------- what is printed

  /** The row is the print job of one of these submissions: its own image for its own session. */
  ghost predicate FromSubmit(row: Row, actions: seq<DeskAction>) {
    exists k | 0 <= k < |actions| :: actions[k].Submit? && row.payload ==
      map["image_path" := actions[k].imagePath, "session_id" := actions[k].session]
  }

  lemma DeskStepKeepsJobs(s: WorkerPool.Pool, a: DeskAction, limit: int)
    requires WorkerPool.WellFormed(s)
    ensures SameJobs(s.rows, DeskStep(s, a, limit).rows)
  {
    if a.Work? {
      if a.action.Claim? && a.action.w < |s.workers| {
        NextJobIsOldestEligible(s.rows, s.clock, Some(s.workers[a.action.w].kind));
      }
    }
  }

  lemma DeskStepPrints(s: WorkerPool.Pool, a: DeskAction, limit: int)
    requires WorkerPool.WellFormed(s) && (a.Work? && a.action.Enqueue? ==> a.action.jobKind != "print")
    ensures forall i | |s.rows| <= i < |DeskStep(s, a, limit).rows| && DeskStep(s, a, limit).rows[i].kind == "print" ::
              FromSubmit(DeskStep(s, a, limit).rows[i], [a])
  {
    if a.Submit? {
      assert [a][0].Submit?;
    } else if a.action.Claim? && a.action.w < |s.workers| {
      NextJobIsOldestEligible(s.rows, s.clock, Some(s.workers[a.action.w].kind));
    }
  }

  /** In every run a print job in the table is that of a submission, and keeps its image: nothing that is done to
      jobs makes one print another's picture. */
  lemma {:induction false} PrintsComeFromSubmits(s: WorkerPool.Pool, actions: seq<DeskAction>, limit: int, i: JobId)
    requires WorkerPool.WellFormed(s) && OnlySubmitPrints(actions)
    requires |s.rows| <= i < |DeskRun(s, actions, limit).rows| && DeskRun(s, actions, limit).rows[i].kind == "print"
    ensures FromSubmit(DeskRun(s, actions, limit).rows[i], actions)
    decreases |actions|
  {
    if |actions| > 0 {
      var r := DeskStep(s, actions[0], limit);
      assert actions[0] in actions;
      if i < |r.rows| {
        DeskRunKeepsJobs(r, actions[1..], limit);
        DeskStepPrints(s, actions[0], limit);
        assert FromSubmit(r.rows[i], [actions[0]]);
        assert actions[0].Submit?;
      } else {
        PrintsComeFromSubmits(r, actions[1..], limit, i);
        var k :| 0 <= k < |actions| - 1 && actions[1..][k].Submit? && DeskRun(s, actions, limit).rows[i].payload ==
          map["image_path" := actions[1..][k].imagePath, "session_id" := actions[1..][k].session];
        assert actions[k + 1] == actions[1..][k];
      }
    }
  }

  lemma {:induction false} DeskRunKeepsJobs(s: WorkerPool.Pool, actions: seq<DeskAction>, limit: int)
    requires WorkerPool.WellFormed(s)
    ensures SameJobs(s.rows, DeskRun(s, actions, limit).rows)
    decreases |actions|
  {
    if |actions| > 0 {
      DeskStepKeepsJobs(s, actions[0], limit);
      DeskRunKeepsJobs(DeskStep(s, actions[0], limit), actions[1..], limit);
    }
  }
}
