/**
 The `jobs` table and the four SQL statements that change it, as functions on values.

 A row is never deleted, so the position of a row in the table stands for its uuid.  `createdAt` is the
 instant whose `isoformat()` text the column holds; module IsoTime proves that ORDER BY on the text is
 ORDER BY on the instant.
 */
module JobTable {
  import opened Results

  type JobId = nat

  datatype Status = Pending | Claimed | Done | Dead

  datatype Row = Row(
    kind: string,
    payload: map<string, string>,
    status: Status,
    attempts: nat,
    maxAttempts: int,
    nextAttemptAt: real,
    claimedAt: Option<real>,
    createdAt: real,
    updatedAt: real,
    lastError: Option<string>)

  type Table = seq<Row>

  const MAX_BACKOFF_S: real := 3600.0
  const DEFAULT_BACKOFF_BASE_S: real := 5.0

  // ---------------------------------------------------------------- INSERT

  function NewRow(kind: string, payload: map<string, string>, maxAttempts: int, now: real): Row {
    Row(kind, payload, Pending, 0, maxAttempts, now, None, now, now, None)
  }

  // ---------------------------------------------------------------- SELECT

  predicate Eligible(row: Row, now: real, kind: Option<string>) {
    row.status.Pending? && row.nextAttemptAt <= now && (kind.Some? ==> row.kind == kind.value)
  }

  /** ORDER BY created_at; rows created at the same instant keep their order in the table. */
  predicate Older(rows: Table, i: JobId, j: JobId)
    requires i < |rows| && j < |rows|
  {
    rows[i].createdAt < rows[j].createdAt || (rows[i].createdAt == rows[j].createdAt && i < j)
  }

  ghost predicate OldestFirst(rows: Table, ids: seq<JobId>) {
    && (forall k | 0 <= k < |ids| :: ids[k] < |rows|)
    && (forall k, l | 0 <= k < l < |ids| :: Older(rows, ids[k], ids[l]))
  }

  /** `ids` answers the SELECT of `claim`: exactly the eligible rows, once each, oldest first. */
  ghost predicate IsSelection(rows: Table, upTo: nat, now: real, kind: Option<string>, ids: seq<JobId>)
    requires upTo <= |rows|
  {
    && (forall k | 0 <= k < |ids| :: ids[k] < upTo && Eligible(rows[ids[k]], now, kind))
    && (forall i | 0 <= i < upTo && Eligible(rows[i], now, kind) :: i in ids)
    && OldestFirst(rows, ids)
  }

  lemma OldestFirstAppend(rows: Table, ids: seq<JobId>, id: JobId)
    requires id < |rows| && OldestFirst(rows, ids)
    requires forall k | 0 <= k < |ids| :: Older(rows, ids[k], id)
    ensures OldestFirst(rows, ids + [id])
  {
  }

  lemma OldestFirstSplit(rows: Table, ids: seq<JobId>)
    requires |ids| > 0 && OldestFirst(rows, ids)
    ensures OldestFirst(rows, ids[..|ids| - 1])
    ensures forall k | 0 <= k < |ids| - 1 :: Older(rows, ids[k], ids[|ids| - 1])
    ensures ids == ids[..|ids| - 1] + [ids[|ids| - 1]]
  {
  }

  lemma FrontIsOlder(rows: Table, ids: seq<JobId>, id: JobId, front: seq<JobId>)
    requires |ids| > 0 && id < |rows| && OldestFirst(rows, ids) && OldestFirst(rows, front)
    requires forall i :: i in front <==> i in ids[..|ids| - 1] || i == id
    requires rows[id].createdAt < rows[ids[|ids| - 1]].createdAt
    ensures forall k | 0 <= k < |front| :: Older(rows, front[k], ids[|ids| - 1])
  {
    forall k | 0 <= k < |front| ensures Older(rows, front[k], ids[|ids| - 1]) {
      assert front[k] in front;
    }
  }

  function InsertByAge(rows: Table, ids: seq<JobId>, id: JobId): (r: seq<JobId>)
    requires id < |rows| && OldestFirst(rows, ids)
    requires forall k | 0 <= k < |ids| :: ids[k] < id
    ensures forall i :: i in r <==> i in ids || i == id
    ensures OldestFirst(rows, r)
  {
    if |ids| == 0 then [id]
    else
      var last := ids[|ids| - 1];
      OldestFirstSplit(rows, ids);
      if rows[last].createdAt <= rows[id].createdAt then
        assert forall k | 0 <= k < |ids| :: Older(rows, ids[k], id);
        OldestFirstAppend(rows, ids, id);
        ids + [id]
      else
        var front := InsertByAge(rows, ids[..|ids| - 1], id);
        FrontIsOlder(rows, ids, id, front);
        OldestFirstAppend(rows, front, last);
        front + [last]
  }

  function CandidatesUpTo(rows: Table, upTo: nat, now: real, kind: Option<string>): (ids: seq<JobId>)
    requires upTo <= |rows|
    ensures IsSelection(rows, upTo, now, kind, ids)
  {
    if upTo == 0 then []
    else
      var ids := CandidatesUpTo(rows, upTo - 1, now, kind);
      if Eligible(rows[upTo - 1], now, kind) then
        var r := InsertByAge(rows, ids, upTo - 1);
        assert forall k | 0 <= k < |r| :: r[k] in r;
        r
      else ids
  }

  function Candidates(rows: Table, now: real, kind: Option<string>): (ids: seq<JobId>)
    ensures IsSelection(rows, |rows|, now, kind, ids)
  {
    CandidatesUpTo(rows, |rows|, now, kind)
  }

  /** The job an uninterrupted `claim` takes. */
  function NextJob(rows: Table, now: real, kind: Option<string>): Option<JobId> {
    var ids := Candidates(rows, now, kind);
    if |ids| == 0 then None else Some(ids[0])
  }

  /** `claim` finds nothing exactly when nothing is eligible, and otherwise takes an eligible row that
      is older than every other eligible one. */
  lemma NextJobIsOldestEligible(rows: Table, now: real, kind: Option<string>)
    ensures NextJob(rows, now, kind).None? <==> forall i | 0 <= i < |rows| :: !Eligible(rows[i], now, kind)
    ensures NextJob(rows, now, kind).Some? ==>
              var id := NextJob(rows, now, kind).value;
              && id < |rows|
              && Eligible(rows[id], now, kind)
              && forall i | 0 <= i < |rows| && Eligible(rows[i], now, kind) && i != id :: Older(rows, id, i)
  {
    var ids := Candidates(rows, now, kind);
    if |ids| > 0 {
      assert Eligible(rows[ids[0]], now, kind);
      forall i | 0 <= i < |rows| && Eligible(rows[i], now, kind) && i != ids[0]
        ensures Older(rows, ids[0], i)
      {
        var k :| 0 <= k < |ids| && ids[k] == i;
      }
    }
  }

  // ---------------------------------------------------------------- UPDATE

  /** UPDATE … SET status = 'claimed' WHERE id = ? AND status = 'pending'. */
  function ClaimAt(rows: Table, id: JobId, now: real): Table {
    if id < |rows| && rows[id].status.Pending? then
      rows[id := rows[id].(status := Claimed, claimedAt := Some(now), updatedAt := now)]
    else rows
  }

  function CompleteAt(rows: Table, id: JobId, now: real): Table {
    if id < |rows| then rows[id := rows[id].(status := Done, updatedAt := now)] else rows
  }

  function Pow2(n: nat): (p: nat)
    ensures p >= 1
  {
    if n == 0 then 1 else 2 * Pow2(n - 1)
  }

  function Min(a: real, b: real): real {
    if a <= b then a else b
  }

  /** The wait after the `attempts`-th failure. */
  function Backoff(base: real, attempts: nat): real
    requires attempts >= 1
  {
    Min(base * Pow2(attempts - 1) as real, MAX_BACKOFF_S)
  }

  lemma Doubled(base: real, p: nat)
    requires base >= 0.0 && p >= 1
    ensures base * (2 * p) as real == 2.0 * (base * p as real)
    ensures base * p as real >= base
  {
    assert base * (p - 1) as real >= 0.0;
  }

  /** The first wait is the base, every further one twice the one before, and none is longer than an hour. */
  lemma BackoffDoubles(base: real, attempts: nat)
    requires base >= 0.0 && attempts >= 1
    ensures Backoff(base, 1) == Min(base, 3600.0)
    ensures Backoff(base, attempts + 1) == Min(2.0 * Backoff(base, attempts), 3600.0)
    ensures Backoff(base, 1) <= Backoff(base, attempts) <= 3600.0
  {
    Doubled(base, Pow2(attempts - 1));
    var wait, longer := base * Pow2(attempts - 1) as real, base * Pow2(attempts) as real;
    assert Pow2(attempts) == 2 * Pow2(attempts - 1);
    assert longer == 2.0 * wait && wait >= base;
    assert Backoff(base, attempts) == Min(wait, MAX_BACKOFF_S);
    assert Backoff(base, attempts + 1) == Min(longer, MAX_BACKOFF_S);
    assert Pow2(0) == 1;
    assert Backoff(base, 1) == Min(base * 1.0, MAX_BACKOFF_S);
  }

  /** The waits of a worker: 5, 10, 20 … 2560 seconds for the first ten, an hour from then on. */
  lemma {:induction false} DefaultWaits(attempts: nat)
    requires attempts >= 1
    ensures attempts <= 10 ==> Backoff(DEFAULT_BACKOFF_BASE_S, attempts) == 5.0 * Pow2(attempts - 1) as real
    ensures attempts >= 11 ==> Backoff(DEFAULT_BACKOFF_BASE_S, attempts) == 3600.0
    ensures Backoff(DEFAULT_BACKOFF_BASE_S, 1) == 5.0
    decreases attempts
  {
    BackoffDoubles(DEFAULT_BACKOFF_BASE_S, 1);
    if attempts > 1 {
      DefaultWaits(attempts - 1);
      BackoffDoubles(DEFAULT_BACKOFF_BASE_S, attempts - 1);
      assert Pow2(attempts - 1) == 2 * Pow2(attempts - 2);
      if attempts <= 11 {
        SmallPowers(attempts - 2);
        assert attempts <= 10 ==> Pow2(attempts - 2) <= 256;
      }
    }
  }

  lemma SmallPowers(n: nat)
    requires n <= 9
    ensures Pow2(n) == [1, 2, 4, 8, 16, 32, 64, 128, 256, 512][n]
  {
    var table := [1, 2, 4, 8, 16, 32, 64, 128, 256, 512];
    if n > 0 {
      SmallPowers(n - 1);
      assert forall k | 1 <= k <= 9 :: table[k] == 2 * table[k - 1];
      assert Pow2(n) == 2 * Pow2(n - 1);
    }
  }

  function FailedRow(row: Row, error: string, base: real, now: real): Row {
    var attempts := row.attempts + 1;
    if attempts >= row.maxAttempts then
      row.(status := Dead, attempts := attempts, updatedAt := now, lastError := Some(error))
    else
      row.(status := Pending, attempts := attempts, nextAttemptAt := now + Backoff(base, attempts),
           updatedAt := now, lastError := Some(error), claimedAt := None)
  }

  function FailAt(rows: Table, id: JobId, error: string, base: real, now: real): Table {
    if id < |rows| then rows[id := FailedRow(rows[id], error, base, now)] else rows
  }

  // ---------------------------------------------------------------- budgets

  /** How often a job may be handled in its life: at least once, whatever `max_attempts` says. */
  function Cap(row: Row): (cap: nat)
    ensures cap >= 1 && cap >= row.maxAttempts
  {
    if row.maxAttempts >= 1 then row.maxAttempts else 1
  }

  /** The numbers a row can hold when only `enqueue`, `claim` and the worker loop touch it. */
  predicate SoundRow(row: Row) {
    match row.status
    case Pending => row.attempts < Cap(row)
    case Claimed => row.attempts < Cap(row)
    case Done => row.attempts < Cap(row)
    case Dead => row.attempts == Cap(row)
  }
}
