/**
 `JobQueue` and `run_worker` of storage/queue.py: the table is a field that the methods update, `claim`
 loops over its candidates, the worker loop polls.  Each method is tied to the statements of JobTable.
 Clock readings and what a handler did are parameters.
 */
module JobQueues {
  import opened Results
  import opened JobTable

  datatype Job = Job(id: JobId, kind: string, payload: map<string, string>, attempts: nat)

  function JobOf(rows: Table, id: JobId): Job
    requires id < |rows|
  {
    Job(id, rows[id].kind, rows[id].payload, rows[id].attempts)
  }

  /** WHERE status = 'pending' AND next_attempt_at <= ? AND kind = ?, spelt out. */
  predicate Due(row: Row, now: real, kind: Option<string>) {
    row.status == Pending && row.nextAttemptAt <= now && (kind == None || kind == Some(row.kind))
  }

  class JobQueue {
    var rows: Table

    constructor ()
      ensures rows == []
    {
      rows := [];
    }

    /** The row of the new job, field by field. */
    method Enqueue(kind: string, payload: map<string, string>, maxAttempts: int, now: real) returns (id: JobId)
      modifies this
      ensures id == |old(rows)| && |rows| == id + 1 && rows[..id] == old(rows)
      ensures rows[id].kind == kind && rows[id].payload == payload && rows[id].maxAttempts == maxAttempts
      ensures rows[id].status == Pending && rows[id].attempts == 0
      ensures rows[id].nextAttemptAt == now && rows[id].createdAt == now && rows[id].updatedAt == now
      ensures rows[id].claimedAt == None && rows[id].lastError == None
      ensures rows == old(rows) + [NewRow(kind, payload, maxAttempts, now)]
    {
      id := |rows|;
      rows := rows + [NewRow(kind, payload, maxAttempts, now)];
    }

    /** The oldest job that is due is handed out as its row has it, and only its row changes. */
    method Claim(kind: Option<string>, now: real) returns (claimed: Option<Job>)
      modifies this
      ensures claimed.None? ==> rows == old(rows) && forall i | 0 <= i < |rows| :: !Due(rows[i], now, kind)
      ensures claimed.Some? ==>
                var id := claimed.value.id;
                && id < |old(rows)|
                && Due(old(rows)[id], now, kind)
                && (forall i | 0 <= i < |old(rows)| && Due(old(rows)[i], now, kind) ::
                      old(rows)[id].createdAt <= old(rows)[i].createdAt)
                && claimed.value.kind == old(rows)[id].kind
                && claimed.value.payload == old(rows)[id].payload
                && claimed.value.attempts == old(rows)[id].attempts
                && rows == old(rows)[id := old(rows)[id].(status := Claimed, claimedAt := Some(now), updatedAt := now)]
      ensures NextJob(old(rows), now, kind).Some? <==> claimed.Some?
      ensures claimed.Some? ==>
                && NextJob(old(rows), now, kind) == Some(claimed.value.id)
                && claimed.value == JobOf(old(rows), claimed.value.id)
                && rows == ClaimAt(old(rows), claimed.value.id, now)
    {
      NextJobIsOldestEligible(rows, now, kind);
      assert forall i | 0 <= i < |rows| :: Due(rows[i], now, kind) <==> Eligible(rows[i], now, kind);
      var candidates := Candidates(rows, now, kind);
      for k := 0 to |candidates|
        invariant rows == old(rows)
        invariant k == 0
      {
        var jobId := candidates[k];
        var rowcount := if rows[jobId].status.Pending? then 1 else 0;
        rows := ClaimAt(rows, jobId, now);
        if rowcount == 1 {
          return Some(JobOf(rows, jobId));
        }
      }
      return None;
    }

    method Complete(id: JobId, now: real)
      modifies this
      ensures id < |old(rows)| ==> rows == old(rows)[id := old(rows)[id].(status := Done, updatedAt := now)]
      ensures id >= |old(rows)| ==> rows == old(rows)
      ensures rows == CompleteAt(old(rows), id, now)
    {
      if id < |rows| {
        rows := rows[id := rows[id].(status := Done, updatedAt := now)];
      }
    }

    /** One more attempt: dead at the limit, else due again after a wait between the base and an hour. */
    method Fail(id: JobId, error: string, base: real, now: real)
      modifies this
      ensures id >= |old(rows)| ==> rows == old(rows)
      ensures id < |old(rows)| ==>
                && |rows| == |old(rows)| && (forall i | 0 <= i < |rows| && i != id :: rows[i] == old(rows)[i])
                && var was := old(rows)[id];
                   if was.attempts + 1 >= was.maxAttempts
                   then rows[id] == was.(status := Dead, attempts := was.attempts + 1, updatedAt := now,
                                         lastError := Some(error))
                   else rows[id] == was.(status := Pending, attempts := was.attempts + 1, updatedAt := now,
                                         lastError := Some(error), claimedAt := None,
                                         nextAttemptAt := rows[id].nextAttemptAt)
      ensures id < |rows| && rows[id].status.Pending? ==>
                && rows[id].nextAttemptAt == now + Backoff(base, rows[id].attempts)
                && rows[id].nextAttemptAt <= now + 3600.0
                && (base >= 0.0 ==> rows[id].nextAttemptAt >= now + Min(base, 3600.0))
      ensures rows == FailAt(old(rows), id, error, base, now)
    {
      if id >= |rows| {
        return;
      }
      var attempts := rows[id].attempts + 1;
      if attempts >= rows[id].maxAttempts {
        rows := rows[id := rows[id].(status := Dead, attempts := attempts, updatedAt := now,
                                     lastError := Some(error))];
      } else {
        var delay := Backoff(base, attempts);
        if base >= 0.0 {
          BackoffDoubles(base, attempts);
        }
        rows := rows[id := rows[id].(status := Pending, attempts := attempts, nextAttemptAt := now + delay,
                                     updatedAt := now, lastError := Some(error), claimedAt := None)];
      }
    }
  }

  // ---------------------------------------------------------------- what others do meanwhile

  /** A call that another coroutine makes on the same queue. */
  datatype Call =
    | EnqueueCall(kind: string, payload: map<string, string>, maxAttempts: int, at: real)
    | ClaimCall(wanted: Option<string>, at: real)
    | CompleteCall(id: JobId, at: real)
    | FailCall(id: JobId, error: string, base: real, at: real)

  function Called(rows: Table, call: Call): Table {
    match call
    case EnqueueCall(kind, payload, maxAttempts, at) => rows + [NewRow(kind, payload, maxAttempts, at)]
    case ClaimCall(wanted, at) =>
      var next := NextJob(rows, at, wanted);
      if next.None? then rows else ClaimAt(rows, next.value, at)
    case CompleteCall(id, at) => CompleteAt(rows, id, at)
    case FailCall(id, error, base, at) => FailAt(rows, id, error, base, at)
  }

  function CalledAll(rows: Table, calls: seq<Call>): Table
    decreases |calls|
  {
    if |calls| == 0 then rows else CalledAll(Called(rows, calls[0]), calls[1..])
  }

  /** The worker is suspended while others make these calls. */
  method Suspend(queue: JobQueue, calls: seq<Call>)
    modifies queue
    ensures queue.rows == CalledAll(old(queue.rows), calls)
  {
    var left := calls;
    while |left| > 0
      invariant CalledAll(queue.rows, left) == CalledAll(old(queue.rows), calls)
      decreases |left|
    {
      match left[0] {
        case EnqueueCall(kind, payload, maxAttempts, at) => var _ := queue.Enqueue(kind, payload, maxAttempts, at);
        case ClaimCall(wanted, at) => var _ := queue.Claim(wanted, at);
        case CompleteCall(id, at) => queue.Complete(id, at);
        case FailCall(id, error, base, at) => queue.Fail(id, error, base, at);
      }
      left := left[1..];
    }
  }

  // ---------------------------------------------------------------- the worker loop

  /** One turn of the worker loop: the clock when it polls, what others do while it is suspended (in its handler
      if it got a job, asleep if not), what the handler did, and the clock when it settles the job. */
  datatype Turn = Turn(polledAt: real, meanwhile: seq<Call>, error: Option<string>, settledAt: real)

  function Settled(rows: Table, id: JobId, turn: Turn): Table {
    if turn.error.None? then CompleteAt(rows, id, turn.settledAt)
    else FailAt(rows, id, turn.error.value, DEFAULT_BACKOFF_BASE_S, turn.settledAt)
  }

  function OneTurn(rows: Table, kind: string, turn: Turn): Table {
    var next := NextJob(rows, turn.polledAt, Some(kind));
    if next.None? then CalledAll(rows, turn.meanwhile)
    else Settled(CalledAll(ClaimAt(rows, next.value, turn.polledAt), turn.meanwhile), next.value, turn)
  }

  function Worked(rows: Table, kind: string, turns: seq<Turn>): Table
    decreases |turns|
  {
    if |turns| == 0 then rows else Worked(OneTurn(rows, kind, turns[0]), kind, turns[1..])
  }

  // ---------------------------------------------------------------- what a job is about

  /** The same jobs with the same kinds, payloads, limits and creation times, and possibly more. */
  ghost predicate SameJobs(before: Table, after: Table) {
    && |before| <= |after|
    && forall i | 0 <= i < |before| ::
         && after[i].kind == before[i].kind && after[i].payload == before[i].payload
         && after[i].maxAttempts == before[i].maxAttempts && after[i].createdAt == before[i].createdAt
  }

  lemma CallKeepsJobs(rows: Table, call: Call)
    ensures SameJobs(rows, Called(rows, call))
  {
    if call.ClaimCall? {
      NextJobIsOldestEligible(rows, call.at, call.wanted);
    }
  }

  lemma {:induction false} CallsKeepJobs(rows: Table, calls: seq<Call>)
    ensures SameJobs(rows, CalledAll(rows, calls))
    decreases |calls|
  {
    if |calls| > 0 {
      CallKeepsJobs(rows, calls[0]);
      CallsKeepJobs(Called(rows, calls[0]), calls[1..]);
    }
  }

  /** Jobs of this kind, with the payload their rows have. */
  ghost predicate AsTheirRows(handed: seq<Job>, kind: string, rows: Table) {
    forall k | 0 <= k < |handed| ::
      && handed[k].id < |rows|
      && handed[k].kind == kind == rows[handed[k].id].kind
      && handed[k].payload == rows[handed[k].id].payload
  }

  lemma StillAsTheirRows(handed: seq<Job>, kind: string, before: Table, after: Table)
    requires AsTheirRows(handed, kind, before) && SameJobs(before, after)
    ensures AsTheirRows(handed, kind, after)
  {
  }

  lemma SameJobsTrans(a: Table, b: Table, c: Table)
    requires SameJobs(a, b) && SameJobs(b, c)
    ensures SameJobs(a, c)
  {
  }

  /** The jobs that the turns claim, in order. */
  function ClaimedIds(rows: Table, kind: string, turns: seq<Turn>): seq<JobId>
    decreases |turns|
  {
    if |turns| == 0 then []
    else ClaimedId(rows, kind, turns[0]) + ClaimedIds(OneTurn(rows, kind, turns[0]), kind, turns[1..])
  }

  function ClaimedId(rows: Table, kind: string, turn: Turn): seq<JobId> {
    var next := NextJob(rows, turn.polledAt, Some(kind));
    if next.None? then [] else [next.value]
  }

  /** `run_worker` until its stop event is set, which happens after the given turns.  `handed` are the jobs that the
      handler was called with: those the turns claim, in order, and each is a job of this worker's kind, with the
      payload its row has, and has had since it was enqueued. */
  method RunWorker(queue: JobQueue, kind: string, turns: seq<Turn>) returns (handed: seq<Job>)
    modifies queue
    ensures queue.rows == Worked(old(queue.rows), kind, turns)
    ensures SameJobs(old(queue.rows), queue.rows) && AsTheirRows(handed, kind, queue.rows)
    ensures Ids(handed) == ClaimedIds(old(queue.rows), kind, turns)
  {
    var left := turns;
    handed := [];
    while |left| > 0
      invariant Worked(queue.rows, kind, left) == Worked(old(queue.rows), kind, turns)
      invariant SameJobs(old(queue.rows), queue.rows) && AsTheirRows(handed, kind, queue.rows)
      invariant Ids(handed) + ClaimedIds(queue.rows, kind, left) == ClaimedIds(old(queue.rows), kind, turns)
      decreases |left|
    {
      ghost var before, was := queue.rows, handed;
      var job := TakeTurn(queue, kind, left[0]);
      SameJobsTrans(old(queue.rows), before, queue.rows);
      if job.Some? {
        handed := handed + [job.value];
      }
      Handed(was, job, kind, before, queue.rows, left);
      left := left[1..];
    }
  }

  function With(handed: seq<Job>, job: Option<Job>): seq<Job> {
    if job.None? then handed else handed + [job.value]
  }

  lemma HandedAsTheirRows(was: seq<Job>, job: Option<Job>, kind: string, rows: Table)
    requires AsTheirRows(was, kind, rows) && (job.Some? ==> AsTheirRows([job.value], kind, rows))
    ensures AsTheirRows(With(was, job), kind, rows)
  {
    if job.Some? {
      assert [job.value][0] == job.value;
    }
  }

  lemma HandedIds(was: seq<Job>, job: Option<Job>, first: seq<JobId>, rest: seq<JobId>)
    requires first == if job.None? then [] else [job.value.id]
    ensures Ids(With(was, job)) + rest == Ids(was) + (first + rest)
  {
    assert Ids(With(was, job)) == Ids(was) + first;
  }

  lemma Handed(was: seq<Job>, job: Option<Job>, kind: string, before: Table, after: Table, turns: seq<Turn>)
    requires |turns| > 0 && AsTheirRows(was, kind, before) && SameJobs(before, after)
    requires after == OneTurn(before, kind, turns[0])
    requires ClaimedId(before, kind, turns[0]) == (if job.None? then [] else [job.value.id])
    requires job.Some? ==> AsTheirRows([job.value], kind, after)
    ensures AsTheirRows(With(was, job), kind, after)
    ensures Ids(With(was, job)) + ClaimedIds(after, kind, turns[1..]) == Ids(was) + ClaimedIds(before, kind, turns)
  {
    StillAsTheirRows(was, kind, before, after);
    HandedAsTheirRows(was, job, kind, after);
    HandedIds(was, job, ClaimedId(before, kind, turns[0]), ClaimedIds(after, kind, turns[1..]));
  }

  /** One pass of the loop; `job` is what the handler was called with, if it was. */
  method TakeTurn(queue: JobQueue, kind: string, turn: Turn) returns (job: Option<Job>)
    modifies queue
    ensures queue.rows == OneTurn(old(queue.rows), kind, turn) && SameJobs(old(queue.rows), queue.rows)
    ensures ClaimedId(old(queue.rows), kind, turn) == (if job.None? then [] else [job.value.id])
    ensures job.Some? ==> AsTheirRows([job.value], kind, queue.rows)
  {
    ghost var before := queue.rows;
    job := queue.Claim(Some(kind), turn.polledAt);
    CallKeepsJobs(before, ClaimCall(Some(kind), turn.polledAt));
    ghost var claimed := queue.rows;
    CallsKeepJobs(claimed, turn.meanwhile);
    Suspend(queue, turn.meanwhile);
    SameJobsTrans(before, claimed, queue.rows);
    if job.None? {
      return;
    }
    ghost var handled := queue.rows;
    if turn.error.Some? {
      queue.Fail(job.value.id, turn.error.value, DEFAULT_BACKOFF_BASE_S, turn.settledAt);
      CallKeepsJobs(handled, FailCall(job.value.id, turn.error.value, DEFAULT_BACKOFF_BASE_S, turn.settledAt));
    } else {
      queue.Complete(job.value.id, turn.settledAt);
      CallKeepsJobs(handled, CompleteCall(job.value.id, turn.settledAt));
    }
    SameJobsTrans(before, handled, queue.rows);
  }

  function Ids(handed: seq<Job>): (ids: seq<JobId>)
    ensures |ids| == |handed| && forall k | 0 <= k < |ids| :: ids[k] == handed[k].id
  {
    seq(|handed|, k requires 0 <= k < |handed| => handed[k].id)
  }
}
