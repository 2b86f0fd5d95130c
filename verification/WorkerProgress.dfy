/** Termination, timing and fairness of the worker pool. */
module WorkerProgress {
  import opened Results
  import opened JobTable
  import opened TableSums
  import opened WorkerPool

  // ---------------------------------------------------------------- termination

  /** Claims and settlements the row can still go through. */
  function Rank(row: Row): nat {
    if row.attempts >= Cap(row) then 0
    else match row.status
      case Pending => 2 * (Cap(row) - row.attempts)
      case Claimed => 2 * (Cap(row) - row.attempts) - 1
      case _ => 0
  }

  function Work(rows: Table): nat {
    Total(rows, |rows|, Rank)
  }

  /** The step claims a job: it starts a handler. */
  predicate Starts(s: Pool, a: Action)
    requires WellFormed(s)
  {
    (a.Claim? || a.TryClaim?) && a.w < |s.workers| &&
    !s.workers[a.w].activity.Handling? && Step(s, a).workers[a.w].activity.Handling?
  }

  /** The step settles a job: its handler has ended. */
  predicate Settles(s: Pool, a: Action)
    requires WellFormed(s)
  {
    (a.Succeed? || a.Raise?) && a.w < |s.workers| && s.workers[a.w].activity.Handling?
  }

  predicate Moves(s: Pool, a: Action)
    requires WellFormed(s)
  {
    Starts(s, a) || Settles(s, a)
  }

  /** Claims and settlements are the steps, other than enqueues, that change the table. */
  lemma MovesChangeRows(s: Pool, a: Action)
    requires Inv(s) && !a.Enqueue?
    ensures Moves(s, a) <==> Step(s, a).rows != s.rows
  {
    if Settles(s, a) {
      SettlementChangesRow(s, a);
    } else if a.Claim? && Starts(s, a) {
      NextJobIsOldestEligible(s.rows, s.clock, Some(s.workers[a.w].kind));
      var id := NextJob(s.rows, s.clock, Some(s.workers[a.w].kind)).value;
      assert Step(s, a).rows[id] != s.rows[id];
    } else if a.TryClaim? && Starts(s, a) {
      var id := s.workers[a.w].activity.candidates[0];
      assert Step(s, a).rows[id] != s.rows[id];
    }
  }

  lemma SettlementChangesRow(s: Pool, a: Action)
    requires Inv(s) && Settles(s, a)
    ensures Step(s, a).rows != s.rows
  {
    var id := s.workers[a.w].activity.id;
    assert s.history[id].holder == Some(a.w);
    assert Step(s, a).rows[id] != s.rows[id];
  }

  function CountMoves(s: Pool, actions: seq<Action>): nat
    requires WellFormed(s)
    decreases |actions|
  {
    if |actions| == 0 then 0
    else (if Moves(s, actions[0]) then 1 else 0) + CountMoves(Step(s, actions[0]), actions[1..])
  }

  /** A step other than an enqueue changes at most one row, and a row it changes comes one closer to its end. */
  lemma StepLowersRank(s: Pool, a: Action) returns (i: JobId)
    requires Inv(s) && !a.Enqueue?
    ensures Moves(s, a) ==>
              && i < |s.rows|
              && Step(s, a).rows == s.rows[i := Step(s, a).rows[i]]
              && Rank(Step(s, a).rows[i]) < Rank(s.rows[i])
  {
    i := 0;
    match a
    case Claim(w) =>
      if Moves(s, a) {
        NextJobIsOldestEligible(s.rows, s.clock, Some(s.workers[w].kind));
        i := NextJob(s.rows, s.clock, Some(s.workers[w].kind)).value;
      }
    case TryClaim(w) =>
      if Moves(s, a) { i := s.workers[w].activity.candidates[0]; }
    case Succeed(w) =>
      if Moves(s, a) { i := s.workers[w].activity.id; }
    case Raise(w, error) =>
      if Moves(s, a) { i := s.workers[w].activity.id; }
    case _ =>
  }

  /** With no further enqueues the claims and settlements of any run, split or not, are bounded by a sum
      over the jobs that every one of them lowers: at most 2·max(1, max_attempts) per job. */
  lemma {:induction false} WorkersTerminate(s: Pool, actions: seq<Action>)
    requires Inv(s)
    requires forall a | a in actions :: !a.Enqueue?
    ensures CountMoves(s, actions) + Work(Run(s, actions).rows) <= Work(s.rows)
    ensures Work(s.rows) <= Total(s.rows, |s.rows|, (row: Row) => 2 * Cap(row))
    decreases |actions|
  {
    TotalMonotone(s.rows, |s.rows|, Rank, (row: Row) => 2 * Cap(row));
    if |actions| > 0 {
      var r := Step(s, actions[0]);
      StepKeepsInv(s, actions[0]);
      MovesChangeRows(s, actions[0]);
      var i := StepLowersRank(s, actions[0]);
      if Moves(s, actions[0]) {
        TotalUpdate(s.rows, |s.rows|, Rank, i, r.rows[i]);
      }
      WorkersTerminate(r, actions[1..]);
    }
  }

  // ---------------------------------------------------------------- disciplined runs

  /** `claim` is one step, the clock does not go back, and creation times strictly increase. */
  predicate Disciplined(s: Pool, a: Action) {
    match a
    case Select(_) => false
    case TryClaim(_) => false
    case Tick(to) => s.clock <= to
    case Enqueue(_, _, _) => forall i | 0 <= i < |s.rows| :: s.rows[i].createdAt < s.clock
    case _ => true
  }

  predicate DisciplinedRun(s: Pool, actions: seq<Action>)
    requires WellFormed(s)
    decreases |actions|
  {
    |actions| == 0 || (Disciplined(s, actions[0]) && DisciplinedRun(Step(s, actions[0]), actions[1..]))
  }

  // ---------------------------------------------------------------- backoff

  function BackoffSum(failures: nat): real {
    if failures == 0 then 0.0
    else BackoffSum(failures - 1) + Backoff(DEFAULT_BACKOFF_BASE_S, failures)
  }

  /** In seconds: 5·(2^m - 1) for up to ten failures, and an hour for every further one. */
  lemma {:induction false} BackoffSumInSeconds(failures: nat)
    ensures failures <= 10 ==> BackoffSum(failures) == 5.0 * (Pow2(failures) - 1) as real
    ensures failures >= 10 ==> BackoffSum(failures) == 5115.0 + 3600.0 * (failures - 10) as real
    decreases failures
  {
    if failures == 0 {
      assert Pow2(0) == 1;
    } else {
      BackoffSumInSeconds(failures - 1);
      DefaultWaits(failures);
      assert Pow2(failures) == 2 * Pow2(failures - 1);
      if failures == 10 {
        SmallPowers(9);
      }
    }
  }

  ghost predicate TimedRow(row: Row, h: History, clock: real) {
    && (h.firstClaim.Some? ==> h.firstClaim.value <= clock)
    && match row.status
       case Pending => row.attempts > 0 && h.firstClaim.Some? ==>
                         row.nextAttemptAt >= h.firstClaim.value + BackoffSum(row.attempts)
       case Claimed => h.firstClaim.Some? && clock >= h.firstClaim.value + BackoffSum(row.attempts)
       case Dead => h.firstClaim.Some? && h.deadAt.Some? && row.attempts > 0 &&
                    h.deadAt.value >= h.firstClaim.value + BackoffSum(row.attempts - 1)
       case Done => true
  }

  ghost predicate Timed(s: Pool)
    requires WellFormed(s)
  {
    forall i | 0 <= i < |s.rows| :: TimedRow(s.rows[i], s.history[i], s.clock)
  }

  /** A claim keeps every row timed. */
  lemma ClaimKeepsTimed(s: Pool, w: nat, k: JobId)
    requires Inv(s) && Timed(s) && k < |s.rows|
    ensures var r := Step(s, Claim(w));
            k < |r.rows| && TimedRow(r.rows[k], r.history[k], r.clock)
  {
    assert TimedRow(s.rows[k], s.history[k], s.clock);
    if w < |s.workers| {
      NextJobIsOldestEligible(s.rows, s.clock, Some(s.workers[w].kind));
    }
  }

  lemma EndKeepsTimed(s: Pool, a: Action, k: JobId)
    requires Inv(s) && Timed(s) && k < |s.rows| && (a.Succeed? || a.Raise?)
    ensures var r := Step(s, a);
            k < |r.rows| && TimedRow(r.rows[k], r.history[k], r.clock)
  {
    assert TimedRow(s.rows[k], s.history[k], s.clock);
    if Settles(s, a) {
      assert s.history[s.workers[a.w].activity.id].holder == Some(a.w);
    }
  }

  lemma StepKeepsTimed(s: Pool, a: Action)
    requires Inv(s) && Timed(s) && Disciplined(s, a)
    ensures Timed(Step(s, a))
  {
    var r := Step(s, a);
    forall k | 0 <= k < |r.rows|
      ensures TimedRow(r.rows[k], r.history[k], r.clock)
    {
      if k < |s.rows| {
        assert TimedRow(s.rows[k], s.history[k], s.clock);
        if a.Claim? {
          ClaimKeepsTimed(s, a.w, k);
        } else if a.Succeed? || a.Raise? {
          EndKeepsTimed(s, a, k);
        }
      }
    }
  }

  lemma {:induction false} RunKeepsTimed(s: Pool, actions: seq<Action>)
    requires Inv(s) && Timed(s) && DisciplinedRun(s, actions)
    ensures Inv(Run(s, actions)) && Timed(Run(s, actions))
    decreases |actions|
  {
    if |actions| > 0 {
      StepKeepsInv(s, actions[0]);
      StepKeepsTimed(s, actions[0]);
      RunKeepsTimed(Step(s, actions[0]), actions[1..]);
    }
  }

  /** A job that is dead after m attempts died no sooner after its first claim than the m - 1 waits
      min(5·2^(n-1), 3600) add up to. */
  lemma {:induction false} DeadLetterTime(actions: seq<Action>, i: JobId)
    requires DisciplinedRun(EMPTY, actions)
    requires i < |Run(EMPTY, actions).rows| && Run(EMPTY, actions).rows[i].status.Dead?
    ensures var s := Run(EMPTY, actions);
            && s.rows[i].attempts > 0 && s.history[i].firstClaim.Some? && s.history[i].deadAt.Some?
            && s.history[i].deadAt.value - s.history[i].firstClaim.value >= BackoffSum(s.rows[i].attempts - 1)
  {
    RunKeepsTimed(EMPTY, actions);
    assert TimedRow(Run(EMPTY, actions).rows[i], Run(EMPTY, actions).history[i], Run(EMPTY, actions).clock);
  }

  lemma SelectionOfOne(rows: Table, now: real, kind: Option<string>, ids: seq<JobId>)
    requires |rows| == 1 && Eligible(rows[0], now, kind) && IsSelection(rows, 1, now, kind, ids)
    ensures ids == [0]
  {
    assert 0 in ids;
    assert ids[0] == 0 && ids[|ids| - 1] == 0;
    assert !Older(rows, ids[0], ids[|ids| - 1]);
  }

  // ---------------------------------------------------------------- claims before the wait is over

  predicate ClockForward(s: Pool, actions: seq<Action>)
    requires WellFormed(s)
    decreases |actions|
  {
    |actions| == 0 ||
      ((actions[0].Tick? ==> s.clock <= actions[0].to) && ClockForward(Step(s, actions[0]), actions[1..]))
  }

  /** The row of job `id` against what it was when the clock read `since`: unless it failed since, it is due when
      it was; if it did and is not dead, it is due after `since`. */
  predicate DueSince(s: Pool, id: JobId, since: real, was: Row) {
    && id < |s.rows| && since <= s.clock && was.attempts <= s.rows[id].attempts
    && (s.rows[id].attempts == was.attempts ==> s.rows[id].nextAttemptAt == was.nextAttemptAt)
    && (s.rows[id].attempts > was.attempts && !s.rows[id].status.Dead? ==> s.rows[id].nextAttemptAt > since)
  }

  lemma DueSinceStep(s: Pool, a: Action, id: JobId, since: real, was: Row)
    requires Inv(s) && DueSince(s, id, since, was) && (a.Tick? ==> s.clock <= a.to)
    ensures DueSince(Step(s, a), id, since, was)
  {
    if a.Raise? && Settles(s, a) && s.workers[a.w].activity.id == id {
      assert s.history[id].holder == Some(a.w);
      BackoffDoubles(DEFAULT_BACKOFF_BASE_S, s.rows[id].attempts + 1);
    } else if !a.Enqueue? {
      RowDueUnchanged(s, a, id);
    }
  }

  lemma RowDueUnchanged(s: Pool, a: Action, id: JobId)
    requires Inv(s) && id < |s.rows| && !a.Enqueue?
    requires !(a.Raise? && Settles(s, a) && s.workers[a.w].activity.id == id)
    ensures var r := Step(s, a);
            && id < |r.rows| && r.rows[id].attempts == s.rows[id].attempts
            && r.rows[id].nextAttemptAt == s.rows[id].nextAttemptAt
            && (r.rows[id].status.Dead? <==> s.rows[id].status.Dead?)
  {
    if a.Claim? && a.w < |s.workers| {
      NextJobIsOldestEligible(s.rows, s.clock, Some(s.workers[a.w].kind));
    } else if Settles(s, a) {
      assert s.history[s.workers[a.w].activity.id].holder == Some(a.w);
    }
  }

  /** What worker `w` still tries is what it selected when the clock read `since`. */
  ghost predicate TriesSelected(s: Pool, w: nat, since: real, ids: seq<JobId>) {
    && w < |s.workers|
    && (s.workers[w].activity.Trying? ==>
          && s.workers[w].activity.selectedAt == since
          && forall k | 0 <= k < |s.workers[w].activity.candidates| :: s.workers[w].activity.candidates[k] in ids)
  }

  lemma {:induction false} DueSinceRun(s: Pool, actions: seq<Action>, id: JobId, since: real, was: Row)
    requires Inv(s) && ClockForward(s, actions) && DueSince(s, id, since, was)
    ensures Inv(Run(s, actions)) && DueSince(Run(s, actions), id, since, was)
    decreases |actions|
  {
    if |actions| > 0 {
      StepKeepsInv(s, actions[0]);
      DueSinceStep(s, actions[0], id, since, was);
      DueSinceRun(Step(s, actions[0]), actions[1..], id, since, was);
    }
  }

  lemma TriesSelectedStep(s: Pool, w: nat, a: Action, since: real, ids: seq<JobId>)
    requires Inv(s) && TriesSelected(s, w, since, ids) && a != Select(w)
    ensures TriesSelected(Step(s, a), w, since, ids)
  {
  }

  /** When `claim`'s UPDATE comes after its SELECT with anything in between: it takes a job that by the claim's own
      clock reading is not due if and only if the job has failed since the SELECT. */
  lemma {:induction false} EarlyClaimIffFailedSince(s: Pool, w: nat, actions: seq<Action>)
    requires Inv(s) && w < |s.workers| && s.workers[w].activity.Idle?
    requires ClockForward(Step(s, Select(w)), actions) && Select(w) !in actions
    requires Starts(Run(Step(s, Select(w)), actions), TryClaim(w))
    ensures var before := Run(Step(s, Select(w)), actions);
            before.workers[w].activity.Trying? && |before.workers[w].activity.candidates| > 0 &&
            var id := before.workers[w].activity.candidates[0];
            var after := Step(before, TryClaim(w));
            && id < |s.rows| && id < |after.rows| && after.rows[id].status.Claimed?
            && (after.rows[id].nextAttemptAt > s.clock <==> after.rows[id].attempts > s.rows[id].attempts)
  {
    var kind := Some(s.workers[w].kind);
    var ids := Candidates(s.rows, s.clock, kind);
    var selected := Step(s, Select(w));
    StepKeepsInv(s, Select(w));
    TriedAreSelected(selected, w, actions, s.clock, ids);
    var before := Run(selected, actions);
    var id := before.workers[w].activity.candidates[0];
    assert id in ids;
    var k :| 0 <= k < |ids| && ids[k] == id;
    assert id < |s.rows| && Eligible(s.rows[id], s.clock, kind);
    DueSinceRun(selected, actions, id, s.clock, s.rows[id]);
  }

  lemma {:induction false} TriedAreSelected(s: Pool, w: nat, actions: seq<Action>, since: real, ids: seq<JobId>)
    requires Inv(s) && TriesSelected(s, w, since, ids) && Select(w) !in actions
    ensures TriesSelected(Run(s, actions), w, since, ids)
    decreases |actions|
  {
    if |actions| > 0 {
      StepKeepsInv(s, actions[0]);
      TriesSelectedStep(s, w, actions[0], since, ids);
      TriedAreSelected(Step(s, actions[0]), w, actions[1..], since, ids);
    }
  }

  /** And that does happen when SELECT and UPDATE are apart: the UPDATE re-checks the status but not
      `next_attempt_at`, so a job that has just failed is handled again before its wait is over. */
  lemma {:induction false} SplitClaimSkipsBackoff(kind: string)
    ensures var s := Run(EMPTY, [Spawn(kind), Spawn(kind), Enqueue(kind, map[], 5), Select(0), Select(1),
                                 TryClaim(0), Raise(0, "offline"), TryClaim(1)]);
            |s.rows| == 1 && s.rows[0].status.Claimed? && s.rows[0].attempts == 1 && s.clock < s.rows[0].nextAttemptAt
  {
    var s3 := EMPTY.(workers := [Worker(kind, Idle), Worker(kind, Idle)],
                     rows := [NewRow(kind, map[], 5, 0.0)], history := [History(0, None, None, None)]);
    var actions := [Select(0), Select(1), TryClaim(0), Raise(0, "offline"), TryClaim(1)];
    assert Run(EMPTY, [Spawn(kind), Spawn(kind), Enqueue(kind, map[], 5)] + actions) == Run(s3, actions) by {
      var s1 := Step(EMPTY, Spawn(kind));
      var s2 := Step(s1, Spawn(kind));
      assert Step(s2, Enqueue(kind, map[], 5)) == s3;
      var opening := [Spawn(kind), Spawn(kind), Enqueue(kind, map[], 5)];
      assert opening[1..] == [Spawn(kind), Enqueue(kind, map[], 5)];
      assert opening[1..][1..] == [Enqueue(kind, map[], 5)];
      assert Run(EMPTY, opening) == Run(s1, opening[1..]) == Run(s2, opening[1..][1..]) == s3;
      RunConcat(EMPTY, opening, actions);
    }
    var ids := Candidates(s3.rows, 0.0, Some(kind));
    assert Eligible(s3.rows[0], 0.0, Some(kind)) && 0 in ids;
    SelectionOfOne(s3.rows, 0.0, Some(kind), ids);
    var s4 := Step(s3, actions[0]);
    var s5 := Step(s4, actions[1]);
    var s6 := Step(s5, actions[2]);
    var s7 := Step(s6, actions[3]);
    var s8 := Step(s7, actions[4]);
    assert s5.workers == [Worker(kind, Trying(0.0, [0])), Worker(kind, Trying(0.0, [0]))];
    assert s7.rows[0].status.Pending? && s7.rows[0].nextAttemptAt == Backoff(5.0, 1) by {
      assert Pow2(0) == 1;
    }
    assert Run(s3, actions) == Run(s4, actions[1..]) == Run(s5, actions[1..][1..]);
    assert Run(s5, actions[1..][1..]) == Run(s6, actions[1..][1..][1..]);
    assert Run(s6, actions[1..][1..][1..]) == Run(s7, actions[1..][1..][1..][1..]);
    assert actions[1..][1..][1..][1..] == [actions[4]];
    assert Run(s7, [actions[4]]) == s8;
    assert [Spawn(kind), Spawn(kind), Enqueue(kind, map[], 5), Select(0), Select(1),
            TryClaim(0), Raise(0, "offline"), TryClaim(1)]
        == [Spawn(kind), Spawn(kind), Enqueue(kind, map[], 5)] + actions;
  }

  // ---------------------------------------------------------------- bounded bypass

  /** How often the row can still be claimed. */
  function Remaining(row: Row): nat {
    if row.attempts >= Cap(row) then 0
    else match row.status
      case Pending => Cap(row) - row.attempts
      case Claimed => Cap(row) - row.attempts - 1
      case _ => 0
  }

  function Weight(kind: string): Row -> nat {
    (row: Row) => if row.kind == kind then Remaining(row) else 0
  }

  /** Claims that the jobs of this kind older than `j` can still take. */
  function Ahead(rows: Table, j: JobId, kind: string): nat
    requires j <= |rows|
  {
    Total(rows, j, Weight(kind))
  }

  function AttemptsLeft(kind: string): Row -> nat {
    (row: Row) => if row.kind == kind && row.attempts < Cap(row) then Cap(row) - row.attempts else 0
  }

  /** What is ahead is no more than the attempts that the older jobs of the kind have left. */
  lemma AheadIsAttemptsLeft(rows: Table, j: JobId, kind: string)
    requires j <= |rows|
    ensures Ahead(rows, j, kind) <= Total(rows, j, AttemptsLeft(kind))
  {
    TotalMonotone(rows, j, Weight(kind), AttemptsLeft(kind));
  }

  ghost predicate CreationIncreases(rows: Table) {
    forall i, j | 0 <= i < j < |rows| :: rows[i].createdAt < rows[j].createdAt
  }

  predicate ClaimsKind(s: Pool, a: Action, kind: string)
    requires WellFormed(s)
  {
    a.Claim? && Starts(s, a) && s.workers[a.w].kind == kind
  }

  function CountClaims(s: Pool, actions: seq<Action>, kind: string): nat
    requires WellFormed(s)
    decreases |actions|
  {
    if |actions| == 0 then 0
    else (if ClaimsKind(s, actions[0], kind) then 1 else 0) + CountClaims(Step(s, actions[0]), actions[1..], kind)
  }

  ghost predicate Waiting(s: Pool, j: JobId, kind: string) {
    && Inv(s) && CreationIncreases(s.rows)
    && j < |s.rows| && Eligible(s.rows[j], s.clock, Some(kind))
  }

  /** A claim of the waiting job's kind takes that job or one created before it. */
  lemma ClaimTakesOlder(s: Pool, w: nat, j: JobId, kind: string) returns (i: JobId)
    requires Waiting(s, j, kind) && w < |s.workers| && s.workers[w].activity.Idle? && s.workers[w].kind == kind
    ensures i <= j && NextJob(s.rows, s.clock, Some(kind)) == Some(i)
    ensures Eligible(s.rows[i], s.clock, Some(kind))
  {
    NextJobIsOldestEligible(s.rows, s.clock, Some(kind));
    i := NextJob(s.rows, s.clock, Some(kind)).value;
    assert i != j ==> Older(s.rows, i, j);
  }

  /** Rows change in place and keep their kind and creation time. */
  lemma ChangedRowKeepsIdentity(s: Pool, a: Action, i: JobId)
    requires Inv(s) && !a.Enqueue? && i < |s.rows|
    ensures |Step(s, a).rows| == |s.rows|
    ensures Step(s, a).rows[i].kind == s.rows[i].kind && Step(s, a).rows[i].createdAt == s.rows[i].createdAt
    ensures Remaining(Step(s, a).rows[i]) <= Remaining(s.rows[i])
    ensures s.rows[i].status.Pending? && Step(s, a).rows[i] != s.rows[i] ==>
              && Step(s, a).rows[i].status.Claimed?
              && Step(s, a).history[i].handled == s.history[i].handled + 1
              && Remaining(Step(s, a).rows[i]) < Remaining(s.rows[i])
    ensures Step(s, a).history[i].handled >= s.history[i].handled
    ensures Step(s, a).rows[i] == s.rows[i] ==> Step(s, a).history[i].handled == s.history[i].handled
  {
    if a.Claim? && a.w < |s.workers| {
      NextJobIsOldestEligible(s.rows, s.clock, Some(s.workers[a.w].kind));
    }
  }

  lemma WaitingStays(s: Pool, a: Action, j: JobId, kind: string)
    requires Waiting(s, j, kind) && Disciplined(s, a) && !a.Enqueue?
    ensures var r := Step(s, a);
            && j < |r.rows| && r.history[j].handled >= s.history[j].handled
            && (r.history[j].handled == s.history[j].handled ==> Waiting(r, j, kind))
  {
    var r := Step(s, a);
    StepKeepsInv(s, a);
    forall k | 0 <= k < |s.rows| ensures |r.rows| == |s.rows| && r.rows[k].createdAt == s.rows[k].createdAt {
      ChangedRowKeepsIdentity(s, a, k);
    }
    ChangedRowKeepsIdentity(s, a, j);
  }

  lemma AheadFalls(s: Pool, a: Action, j: JobId, kind: string)
    requires Waiting(s, j, kind) && Disciplined(s, a) && !a.Enqueue?
    requires j < |Step(s, a).history| && Step(s, a).history[j].handled == s.history[j].handled
    ensures j < |Step(s, a).rows|
    ensures Ahead(Step(s, a).rows, j, kind) + (if ClaimsKind(s, a, kind) then 1 else 0) <= Ahead(s.rows, j, kind)
  {
    var r := Step(s, a);
    ChangedRowKeepsIdentity(s, a, j);
    MovesChangeRows(s, a);
    if Moves(s, a) {
      var i := StepLowersRank(s, a);
      TotalUpdate(s.rows, j, Weight(kind), i, r.rows[i]);
      ChangedRowKeepsIdentity(s, a, i);
      if ClaimsKind(s, a, kind) {
        var next := ClaimTakesOlder(s, a.w, j, kind);
        assert r.rows[next] != s.rows[next];
      }
    }
  }

  lemma EnqueueBypasses(s: Pool, a: Action, j: JobId, kind: string)
    requires Waiting(s, j, kind) && Disciplined(s, a) && a.Enqueue?
    ensures var r := Step(s, a);
            && j < |r.rows| && r.history[j].handled == s.history[j].handled
            && Waiting(r, j, kind) && Ahead(r.rows, j, kind) == Ahead(s.rows, j, kind)
  {
    StepKeepsInv(s, a);
    TotalOfPrefix(s.rows, [Step(s, a).rows[|s.rows|]], j, Weight(kind));
  }

  lemma BypassStep(s: Pool, a: Action, j: JobId, kind: string)
    requires Waiting(s, j, kind) && Disciplined(s, a)
    ensures j < |Step(s, a).rows| && Step(s, a).history[j].handled >= s.history[j].handled
    ensures Inv(Step(s, a))
    ensures var r := Step(s, a);
            r.history[j].handled == s.history[j].handled ==>
              && Waiting(r, j, kind)
              && Ahead(r.rows, j, kind) + (if ClaimsKind(s, a, kind) then 1 else 0) <= Ahead(s.rows, j, kind)
  {
    StepKeepsInv(s, a);
    if a.Enqueue? {
      EnqueueBypasses(s, a, j, kind);
    } else {
      WaitingStays(s, a, j, kind);
      if Step(s, a).history[j].handled == s.history[j].handled {
        AheadFalls(s, a, j, kind);
      }
    }
  }

  /** As long as an eligible job is passed over, every claim of its kind goes to an older job and uses up
      one of that job's remaining attempts.  So after more claims than those it has been claimed. */
  lemma {:induction false} BoundedBypass(s: Pool, actions: seq<Action>, j: JobId, kind: string)
    requires Waiting(s, j, kind) && DisciplinedRun(s, actions)
    ensures j < |Run(s, actions).rows|
    ensures Run(s, actions).history[j].handled >= s.history[j].handled
    ensures CountClaims(s, actions, kind) > Ahead(s.rows, j, kind) ==>
              Run(s, actions).history[j].handled > s.history[j].handled
    decreases |actions|
  {
    if |actions| > 0 {
      var r := Step(s, actions[0]);
      BypassStep(s, actions[0], j, kind);
      if r.history[j].handled == s.history[j].handled {
        BoundedBypass(r, actions[1..], j, kind);
      } else {
        HandledOnlyGrows(r, actions[1..], j);
      }
    }
  }

  lemma {:induction false} HandledOnlyGrows(s: Pool, actions: seq<Action>, j: JobId)
    requires Inv(s) && j < |s.rows|
    ensures j < |Run(s, actions).rows| && Run(s, actions).history[j].handled >= s.history[j].handled
    decreases |actions|
  {
    if |actions| > 0 {
      StepKeepsInv(s, actions[0]);
      HandledOnlyGrows(Step(s, actions[0]), actions[1..], j);
    }
  }
}
