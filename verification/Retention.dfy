/**
 The retention sweep of storage/retention.py over the `captures` table and the captures directory.

 `created_at` is the text the table stores.  A file is named by its file name, and `locked` holds the
 names whose `unlink` fails with an OSError other than FileNotFoundError, which is logged and swallowed.
 */
module Retention {
  import opened Results
  import opened IsoTime

  type CaptureId = string

  /** The `captures` table: for each id the text in `created_at`. */
  type Rows = map<CaptureId, string>

  datatype RetentionConfig = RetentionConfig(enabled: bool, maxAgeDays: int)

  datatype SweepError = OverflowError

  const SUFFIXES: seq<string> := [".jpg", "-preview.jpg"]

  function Full(id: CaptureId): string { id + ".jpg" }
  function Preview(id: CaptureId): string { id + "-preview.jpg" }

  function PathsOf(id: CaptureId): set<string> { {Full(id), Preview(id)} }

  function Stale(rows: Rows, cutoff: string): set<CaptureId> {
    set id | id in rows && Less(rows[id], cutoff)
  }

  /** The names the sweep unlinks. */
  function PathsOfAll(ids: set<CaptureId>): set<string> {
    (set id | id in ids :: Full(id)) + (set id | id in ids :: Preview(id))
  }

  function RowsAfter(rows: Rows, cutoff: string): Rows {
    rows - Stale(rows, cutoff)
  }

  function Unlinked(files: set<string>, ids: set<CaptureId>, locked: set<string>): set<string> {
    files - (PathsOfAll(ids) - locked)
  }

  function FilesAfter(rows: Rows, files: set<string>, locked: set<string>, cutoff: string): set<string> {
    Unlinked(files, Stale(rows, cutoff), locked)
  }

  // ---------------------------------------------------------------- the store and its methods

  class CaptureStore {
    var rows: Rows
    var files: set<string>

    constructor (rows: Rows, files: set<string>)
      ensures this.rows == rows && this.files == files
    {
      this.rows, this.files := rows, files;
    }

    /** `CaptureRepo.list_older_than`: the rows in any order. */
    method ListOlderThan(cutoff: string) returns (ids: seq<CaptureId>)
      ensures forall id :: id in ids <==> id in Stale(rows, cutoff)
      ensures forall i, j | 0 <= i < j < |ids| :: ids[i] != ids[j]
      ensures |ids| == |Stale(rows, cutoff)|
    {
      ids := [];
      var unread := rows.Keys;
      while unread != {}
        invariant unread <= rows.Keys
        invariant forall id :: id in ids <==> id in Stale(rows, cutoff) && id !in unread
        invariant forall i, j | 0 <= i < j < |ids| :: ids[i] != ids[j]
        decreases unread
      {
        var id :| id in unread;
        unread := unread - {id};
        if Less(rows[id], cutoff) {
          ids := ids + [id];
        }
      }
      DistinctCount(ids, Stale(rows, cutoff));
    }

    /** `Path.unlink` inside its try: gone, already missing, or logged and left. */
    method Unlink(path: string, locked: set<string>)
      modifies this`files
      ensures files == old(files) - ({path} - locked)
    {
      if path in files && path !in locked {
        files := files - {path};
      }
    }

    /** `delete_capture`: both files as far as possible, and the row in any case. */
    method DeleteCapture(id: CaptureId, locked: set<string>)
      modifies this
      ensures rows == old(rows) - {id}
      ensures files == old(files) - ({id + ".jpg", id + "-preview.jpg"} - locked)
    {
      for i := 0 to |SUFFIXES|
        invariant rows == old(rows)
        invariant i == 0 ==> files == old(files)
        invariant i == 1 ==> files == old(files) - ({Full(id)} - locked)
        invariant i == 2 ==> files == old(files) - (PathsOf(id) - locked)
      {
        Unlink(id + SUFFIXES[i], locked);
      }
      rows := rows - {id};
    }

    /** `run_retention_sweep_once` at the time `now`. */
    method RunSweepOnce(now: DateTime, config: RetentionConfig, locked: set<string>)
      returns (deleted: Result<nat, SweepError>)
      requires Valid(now)
      modifies this
      ensures !config.enabled ==> deleted == Ok(0) && rows == old(rows) && files == old(files)
      ensures config.enabled ==>
        match MinusDays(now, config.maxAgeDays)
        case None => deleted == Err(OverflowError) && rows == old(rows) && files == old(files)
        case Some(cutoff) =>
          && deleted == Ok(|Stale(old(rows), Iso(cutoff))|)
          && rows == RowsAfter(old(rows), Iso(cutoff))
          && files == FilesAfter(old(rows), old(files), locked, Iso(cutoff))
    {
      if !config.enabled {
        return Ok(0);
      }
      var cutoff := MinusDays(now, config.maxAgeDays);
      if cutoff.None? {
        return Err(OverflowError);
      }
      var staleIds := ListOlderThan(Iso(cutoff.value));
      ghost var removed: set<CaptureId> := {};
      for i := 0 to |staleIds|
        invariant forall id :: id in removed <==> id in staleIds[..i]
        invariant rows == old(rows) - removed
        invariant files == Unlinked(old(files), removed, locked)
      {
        DeleteCapture(staleIds[i], locked);
        OneMoreUnlinked(old(files), removed, staleIds[i], locked);
        assert staleIds[..i + 1] == staleIds[..i] + [staleIds[i]];
        removed := removed + {staleIds[i]};
      }
      assert staleIds[..|staleIds|] == staleIds;
      assert removed == Stale(old(rows), Iso(cutoff.value));
      return Ok(|staleIds|);
    }
  }

  lemma OneMoreUnlinked(files: set<string>, ids: set<CaptureId>, id: CaptureId, locked: set<string>)
    ensures Unlinked(files, ids + {id}, locked) == Unlinked(files, ids, locked) - (PathsOf(id) - locked)
  {
    assert PathsOfAll(ids + {id}) == PathsOfAll(ids) + PathsOf(id);
  }

  lemma {:induction false} DistinctCount(ids: seq<CaptureId>, all: set<CaptureId>)
    requires forall id :: id in ids <==> id in all
    requires forall i, j | 0 <= i < j < |ids| :: ids[i] != ids[j]
    ensures |ids| == |all|
  {
    if |ids| == 0 {
      assert all == {};
    } else {
      var last := ids[|ids| - 1];
      DistinctCount(ids[..|ids| - 1], all - {last});
    }
  }

  // ---------------------------------------------------------------- what a sweep promises

  /** In terms of time: whenever the cutoff exists, a sweep keeps exactly the captures that are at most
      `maxAgeDays` days old. */
  lemma SweepKeepsTheYoung(rows: Rows, id: CaptureId, created: DateTime, now: DateTime, maxAgeDays: int)
    requires Valid(created) && Valid(now)
    requires id in rows && rows[id] == Iso(created)
    ensures MinusDays(now, maxAgeDays).Some? ==>
              (id in RowsAfter(rows, Iso(MinusDays(now, maxAgeDays).value))
               <==> Microseconds(now) - Microseconds(created) <= maxAgeDays * 86_400_000_000)
  {
    MinusDaysIsThatLongAgo(now, maxAgeDays);
    if MinusDays(now, maxAgeDays).Some? {
      TextOrderIsTimeOrder(created, MinusDays(now, maxAgeDays).value);
    }
  }

  /** Two captures share a file name only when the id of one is the id of the other with `-preview` added. */
  lemma SharedPath(a: CaptureId, b: CaptureId)
    requires a != b
    ensures PathsOf(a) !! PathsOf(b) <==> a != b + "-preview" && b != a + "-preview"
  {
    Extended(a, b, ".jpg");
    Extended(a, b, "-preview.jpg");
    CrossPath(a, b);
    CrossPath(b, a);
  }

  lemma Extended(a: string, b: string, suffix: string)
    ensures a + suffix == b + suffix <==> a == b
  {
    if a + suffix == b + suffix {
      assert |a| == |b|;
      assert a == (a + suffix)[..|a|] && b == (b + suffix)[..|b|];
    }
  }

  lemma CrossPath(a: CaptureId, b: CaptureId)
    ensures Full(a) == Preview(b) <==> a == b + "-preview"
  {
    assert Preview(b) == (b + "-preview") + ".jpg";
    Extended(a, b + "-preview", ".jpg");
  }

  ghost predicate NoSharedNames(rows: Rows, cutoff: string) {
    forall kept, stale | kept in RowsAfter(rows, cutoff) && stale in Stale(rows, cutoff) ::
      kept != stale + "-preview" && stale != kept + "-preview"
  }

  /** No file of a capture that stays is ever unlinked exactly when no id of a kept and a swept capture
      differ by `-preview`; uuids never do. */
  lemma KeptFilesAreSafe(rows: Rows, cutoff: string)
    ensures (forall kept | kept in RowsAfter(rows, cutoff) :: PathsOf(kept) !! PathsOfAll(Stale(rows, cutoff)))
            <==> NoSharedNames(rows, cutoff)
  {
    forall kept | kept in RowsAfter(rows, cutoff)
      ensures PathsOf(kept) !! PathsOfAll(Stale(rows, cutoff))
              <==> forall stale | stale in Stale(rows, cutoff) ::
                     kept != stale + "-preview" && stale != kept + "-preview"
    {
      KeptFilesAreSafeFrom(kept, Stale(rows, cutoff));
    }
  }

  lemma KeptFilesAreSafeFrom(kept: CaptureId, stale: set<CaptureId>)
    requires kept !in stale
    ensures PathsOf(kept) !! PathsOfAll(stale)
            <==> forall id | id in stale :: kept != id + "-preview" && id != kept + "-preview"
  {
    assert PathsOf(kept) !! PathsOfAll(stale) <==> forall id | id in stale :: PathsOf(kept) !! PathsOf(id) by {
      assert forall id | id in stale :: PathsOf(id) <= PathsOfAll(stale);
    }
    forall id | id in stale
      ensures PathsOf(kept) !! PathsOf(id) <==> kept != id + "-preview" && id != kept + "-preview"
    {
      SharedPath(kept, id);
    }
  }

  /** What is left on disk: every file of a kept capture, every file that belongs to no capture, and of a
      swept capture exactly what could not be unlinked. */
  lemma FilesLeft(rows: Rows, files: set<string>, locked: set<string>, cutoff: string, id: CaptureId, path: string)
    requires id in rows && path in PathsOf(id) && path in files && NoSharedNames(rows, cutoff)
    ensures path in FilesAfter(rows, files, locked, cutoff) <==> id in RowsAfter(rows, cutoff) || path in locked
  {
    KeptFilesAreSafe(rows, cutoff);
    if id in Stale(rows, cutoff) {
      assert path in PathsOfAll(Stale(rows, cutoff));
    }
  }

  lemma ForeignFilesStay(rows: Rows, files: set<string>, locked: set<string>, cutoff: string, path: string)
    requires forall id | id in rows :: path !in PathsOf(id)
    ensures path in FilesAfter(rows, files, locked, cutoff) <==> path in files
  {
  }

  /** The count that is returned is the number of rows that went. */
  lemma CountIsRowsRemoved(rows: Rows, cutoff: string)
    ensures |Stale(rows, cutoff)| + |RowsAfter(rows, cutoff)| == |rows|
  {
    var kept := RowsAfter(rows, cutoff);
    assert rows.Keys == kept.Keys + Stale(rows, cutoff) && kept.Keys !! Stale(rows, cutoff);
    assert |kept.Keys| == |kept| && |rows.Keys| == |rows|;
  }

  lemma LaterCutoffIsStaler(rows: Rows, first: string, second: string)
    requires !Less(second, first)
    ensures Stale(rows, first) <= Stale(rows, second)
    ensures Stale(RowsAfter(rows, first), second) == Stale(rows, second) - Stale(rows, first)
  {
    forall id | id in Stale(rows, first)
      ensures id in Stale(rows, second)
    {
      LessIsOrder(first, second);
      if first != second {
        LessIsTransitive(rows[id], first, second);
      }
    }
  }

  /** The periodic loop: a sweep and then one at a cutoff that is not earlier remove the rows of the second one
      alone.  On disk the first unlinks what it finds stale and can unlink then, and the second the files of the
      captures that have become stale since: what the first could not unlink is not tried again. */
  lemma SweepsCompose(rows: Rows, files: set<string>, locked1: set<string>, locked2: set<string>,
                      first: string, second: string)
    requires !Less(second, first)
    ensures RowsAfter(RowsAfter(rows, first), second) == RowsAfter(rows, second)
    ensures FilesAfter(RowsAfter(rows, first), FilesAfter(rows, files, locked1, first), locked2, second)
         == Unlinked(Unlinked(files, Stale(rows, first), locked1), Stale(rows, second) - Stale(rows, first), locked2)
    ensures locked1 == locked2 ==>
      (FilesAfter(RowsAfter(rows, first), FilesAfter(rows, files, locked1, first), locked2, second)
       == FilesAfter(rows, files, locked2, second))
  {
    LaterCutoffIsStaler(rows, first, second);
    var early, late := Stale(rows, first), Stale(rows, second);
    assert PathsOfAll(late) == PathsOfAll(early) + PathsOfAll(late - early);
  }

  /** A second sweep at the same cutoff removes nothing, whatever has become deletable in between. */
  lemma SecondSweepRemovesNone(rows: Rows, files: set<string>, locked1: set<string>, locked2: set<string>,
                               cutoff: string)
    ensures Stale(RowsAfter(rows, cutoff), cutoff) == {}
    ensures FilesAfter(RowsAfter(rows, cutoff), FilesAfter(rows, files, locked1, cutoff), locked2, cutoff)
         == FilesAfter(rows, files, locked1, cutoff)
  {
    LessIsOrder(cutoff, cutoff);
    SweepsCompose(rows, files, locked1, locked2, cutoff, cutoff);
  }

  // ---------------------------------------------------------------- orphans

  /** What happens to the store later: a sweep, or a capture written under a new id. */
  datatype Deed =
    | Sweep(locked: set<string>, cutoff: string)
    | Create(id: CaptureId, created: string, written: set<string>)

  function Later(rows: Rows, files: set<string>, deeds: seq<Deed>): (Rows, set<string>)
    decreases |deeds|
  {
    if |deeds| == 0 then (rows, files)
    else
      match deeds[0]
      case Sweep(locked, cutoff) => Later(RowsAfter(rows, cutoff), FilesAfter(rows, files, locked, cutoff), deeds[1..])
      case Create(id, created, written) => Later(rows[id := created], files + written, deeds[1..])
  }

  predicate Owned(rows: Rows, path: string) {
    exists id :: id in rows && path in PathsOf(id)
  }

  /** A file that no row owns is never unlinked, however many sweeps follow, unless a new capture takes its name. */
  lemma {:induction false} OrphanStays(rows: Rows, files: set<string>, deeds: seq<Deed>, path: string)
    requires path in files && !Owned(rows, path)
    requires forall d | d in deeds && d.Create? :: path !in PathsOf(d.id)
    ensures path in Later(rows, files, deeds).1
    decreases |deeds|
  {
    if |deeds| > 0 {
      assert deeds[0] in deeds;
      match deeds[0]
      case Sweep(locked, cutoff) =>
        assert forall id | id in rows :: path !in PathsOf(id);
        ForeignFilesStay(rows, files, locked, cutoff, path);
        OrphanStays(RowsAfter(rows, cutoff), FilesAfter(rows, files, locked, cutoff), deeds[1..], path);
      case Create(id, created, written) =>
        OrphanStays(rows[id := created], files + written, deeds[1..], path);
    }
  }

  /** The docstring's "as a unit" fails for exactly these files: a file of a swept capture is left for good if and
      only if it could not be unlinked in the sweep that took its row; deletable again or not, no later sweep
      tries it. */
  lemma {:induction false} LockedFileIsOrphaned(rows: Rows, files: set<string>, locked: set<string>, cutoff: string,
                                                id: CaptureId, path: string, deeds: seq<Deed>)
    requires id in Stale(rows, cutoff) && path in PathsOf(id) && path in files && NoSharedNames(rows, cutoff)
    requires forall d | d in deeds && d.Create? :: path !in PathsOf(d.id) && path !in d.written
    ensures path in Later(RowsAfter(rows, cutoff), FilesAfter(rows, files, locked, cutoff), deeds).1 <==> path in locked
  {
    KeptFilesAreSafe(rows, cutoff);
    FilesLeft(rows, files, locked, cutoff, id, path);
    var kept, left := RowsAfter(rows, cutoff), FilesAfter(rows, files, locked, cutoff);
    assert path in PathsOfAll(Stale(rows, cutoff));
    if path in locked {
      OrphanStays(kept, left, deeds, path);
    } else {
      GoneStaysGone(kept, left, deeds, path);
    }
  }

  lemma {:induction false} GoneStaysGone(rows: Rows, files: set<string>, deeds: seq<Deed>, path: string)
    requires path !in files && forall d | d in deeds && d.Create? :: path !in d.written
    ensures path !in Later(rows, files, deeds).1
    decreases |deeds|
  {
    if |deeds| > 0 {
      assert deeds[0] in deeds;
      match deeds[0]
      case Sweep(locked, cutoff) =>
        GoneStaysGone(RowsAfter(rows, cutoff), FilesAfter(rows, files, locked, cutoff), deeds[1..], path);
      case Create(id, created, written) =>
        GoneStaysGone(rows[id := created], files + written, deeds[1..], path);
    }
  }
}
