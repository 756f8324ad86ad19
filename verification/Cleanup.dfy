/** The nightly cleanup (api/scripts/cleanup_old_runs.py): release what expired runs hold, page by page, and
    delete the runs that hold nothing any more. */
module Cleanup {
  import opened Common
  import opened Ledger

  const BATCH_SIZE: nat := 500

  function Expired(runs: map<RunId, int>, cutoff: int): set<RunId> {
    set r | r in runs && runs[r] < cutoff
  }

  function HeldBy(rows: map<Key, Row>, runs: set<RunId>): set<Key> {
    set k | k in rows && rows[k].run.Some? && rows[k].run.value in runs
  }

  /** A page: as many of the expired runs as fit, none of those left out older than one in it. */
  ghost predicate IsPage(page: set<RunId>, runs: map<RunId, int>, cutoff: int) {
    && page <= Expired(runs, cutoff) && |page| == Min(BATCH_SIZE, |Expired(runs, cutoff)|)
    && forall r, q :: r in page && q in Expired(runs, cutoff) - page ==> runs[r] <= runs[q]
  }

  lemma {:induction false} OldestOf(runs: map<RunId, int>, among: set<RunId>)
    requires among != {} && among <= runs.Keys
    ensures exists r :: r in among && forall q :: q in among ==> runs[r] <= runs[q]
  {
    var x :| x in among;
    if among == {x} {
      assert forall q :: q in among ==> runs[x] <= runs[q];
    } else {
      OldestOf(runs, among - {x});
      var y :| y in among - {x} && forall q :: q in among - {x} ==> runs[y] <= runs[q];
      var r := if runs[x] <= runs[y] then x else y;
      assert forall q :: q in among ==> q == x || q in among - {x};
      assert r in among && forall q :: q in among ==> runs[r] <= runs[q];
    }
  }

  /** The query's ORDER BY created_at LIMIT. */
  method OldestExpired(runs: map<RunId, int>, cutoff: int) returns (page: set<RunId>)
    ensures IsPage(page, runs, cutoff)
    ensures forall r :: r in page ==> r in runs && runs[r] < cutoff
    ensures forall r, q :: r in page && q in runs && q !in page ==> runs[q] >= cutoff || (runs[r] <= runs[q] && |page| == 500)
    ensures |page| < 500 ==> forall q :: q in runs && q !in page ==> runs[q] >= cutoff
    ensures |page| <= 500
  {
    var rest := set r | r in runs && runs[r] < cutoff;
    page := {};
    while |page| < BATCH_SIZE && rest != {}
      invariant page + rest == Expired(runs, cutoff) && page !! rest && |page| <= BATCH_SIZE
      invariant forall r, q :: r in page && q in rest ==> runs[r] <= runs[q]
      decreases |rest|
    {
      OldestOf(runs, rest);
      var next :| next in rest && forall q :: q in rest ==> runs[next] <= runs[q];
      page, rest := page + {next}, rest - {next};
    }
    assert Expired(runs, cutoff) - page == rest;
    assert forall q :: q in runs && runs[q] < cutoff ==> q in page + rest;
    assert |Expired(runs, cutoff)| == |page| + |rest|;
  }

  /** The raw DELETE, with the foreign key's ON DELETE CASCADE. */
  method DeleteRuns(db: Session, ids: set<RunId>)
    modifies db`runs, db`rows
    ensures db.runs == old(db.runs) - ids && db.rows == old(db.rows) - HeldBy(old(db.rows), ids)
  {
    db.rows := db.rows - HeldBy(db.rows, ids);
    db.runs := db.runs - ids;
  }

  /** A run no object of which failed has no row left. */
  lemma ReleasedRunsHoldNothing(rows: map<Key, Row>, page: set<RunId>, gone: set<Key>, failed: set<RunId>)
    requires failed == RunsOf(rows, HeldBy(rows, page) - gone)
    ensures HeldBy(rows - gone, page - failed) == {}
  {
    assert HeldBy(rows - gone, page) == HeldBy(rows, page) - gone;
  }

  lemma HeldAreRows(rows: map<Key, Row>, runs: set<RunId>)
    ensures HeldBy(rows, runs) <= rows.Keys
  {
  }

  /** The runs of a page that no failing delete touches. */
  lemma SparedRuns(rows: map<Key, Row>, page: set<RunId>, bad: set<Key>, failed: set<RunId>)
    requires failed == RunsOf(rows, HeldBy(rows, page) - (HeldBy(rows, page) - bad))
    ensures forall r :: r in page ==> (r !in failed <==> HeldBy(rows, {r}) !! bad)
    ensures forall r :: r in page && r in failed ==> HeldBy(rows, {r}) != {}
  {
    var held := HeldBy(rows, page);
    forall r | r in page ensures r !in failed <==> HeldBy(rows, {r}) !! bad {
      if r in failed {
        var k :| k in held - (held - bad) && k in rows && rows[k].run == Some(r);
        assert k in HeldBy(rows, {r}) && k in bad;
      } else {
        forall k | k in HeldBy(rows, {r}) ensures k !in bad {
          assert k in held;
        }
      }
    }
  }

  lemma EachPassTakesSome(runs: map<RunId, int>, cutoff: int, ids: set<RunId>)
    requires ids != {} && ids <= Expired(runs, cutoff)
    ensures |Expired(runs - ids, cutoff)| < |Expired(runs, cutoff)|
  {
    assert Expired(runs, cutoff) == Expired(runs - ids, cutoff) + ids;
  }

  /** One pass over one page, the deletes of `bad` failing: the runs that hold none of those go. It commits
      unless every run of the page holds one. */
  method Pass(db: Session, page: set<RunId>, bad: set<Key>) returns (ids: set<RunId>, ghost gone: set<Key>)
    requires db.Valid()
    modifies db
    ensures db.Valid() && ids <= page
    ensures gone == HeldBy(old(db.rows), page) - bad && db.objects == old(db.objects) - gone
    ensures forall r :: r in page ==> (r in ids <==> HeldBy(old(db.rows), {r}) !! bad)
    ensures HeldBy(old(db.rows) - gone, ids) == {}
    ensures forall r :: r in page - ids ==> HeldBy(old(db.rows), {r}) != {}
    ensures db.rows == old(db.rows) - gone && db.runs == old(db.runs) - ids
    ensures if ids == {} then db.kept == old(db.kept) && db.keptRuns == old(db.keptRuns)
            else db.kept == db.Now() && db.keptRuns == db.runs
  {
    hide Balanced, Bytes, RunsOf, HeldBy;
    HeldAreRows(db.rows, page);
    var held := HeldBy(db.rows, page);
    var outcome;
    outcome, gone := db.ReleaseObjects(held, bad);
    ReleasedRunsHoldNothing(old(db.rows), page, gone, outcome.failedRuns);
    ids := page - outcome.failedRuns;
    SparedRuns(old(db.rows), page, bad, outcome.failedRuns);
    if ids != {} {
      assert HeldBy(db.rows, ids) == {};
      assert db.rows - {} == db.rows;
      DeleteRuns(db, ids);
      db.Commit();
    } else {
      assert db.runs == db.runs - {};
    }
  }

  datatype Snapshot = Snapshot(runs: map<RunId, int>, rows: map<Key, Row>, objects: set<Key>)

  /** What the night may have done so far: `deleted`, `released` and `removed` say which runs, rows and
      objects are gone. */
  ghost predicate Cleaned(start: Snapshot, now: Snapshot, cutoff: int,
                          deleted: set<RunId>, released: set<Key>, removed: set<Key>, stuck: set<RunId>) {
    && now.runs == start.runs - deleted && deleted <= Expired(start.runs, cutoff)
    && now.rows == start.rows - released && HeldBy(now.rows, deleted) == {}
    && now.objects == start.objects - removed && removed <= HeldBy(start.rows, Expired(start.runs, cutoff))
    && released <= removed && removed - released <= HeldBy(start.rows, stuck)
  }

  lemma PassCleans(start: Snapshot, mid: Snapshot, now: Snapshot, cutoff: int, deleted: set<RunId>, released: set<Key>,
                   removed: set<Key>, page: set<RunId>, ids: set<RunId>, gone: set<Key>)
    requires Cleaned(start, mid, cutoff, deleted, released, removed, {})
    requires page <= Expired(mid.runs, cutoff) && ids <= page && gone <= HeldBy(mid.rows, page)
    requires now == Snapshot(mid.runs - ids, mid.rows - gone, mid.objects - gone) && HeldBy(now.rows, ids) == {}
    ensures Cleaned(start, now, cutoff, deleted + ids, released + gone, removed + gone, {})
  {
    assert HeldBy(start.rows, {}) == {};
    assert HeldBy(now.rows, deleted + ids) <= HeldBy(mid.rows, deleted) + HeldBy(now.rows, ids);
  }

  lemma StuckCleans(start: Snapshot, mid: Snapshot, now: Snapshot, cutoff: int, deleted: set<RunId>, released: set<Key>,
                    removed: set<Key>, page: set<RunId>, gone: set<Key>)
    requires Cleaned(start, mid, cutoff, deleted, released, removed, {})
    requires page <= Expired(mid.runs, cutoff) && gone <= HeldBy(mid.rows, page)
    requires now == mid.(objects := mid.objects - gone)
    ensures Cleaned(start, now, cutoff, deleted, released, removed + gone, page)
  {
    assert HeldBy(start.rows, {}) == {};
    assert page <= Expired(start.runs, cutoff);
    assert HeldBy(mid.rows, page) <= HeldBy(start.rows, page) <= HeldBy(start.rows, Expired(start.runs, cutoff));
    assert removed + gone - released <= (removed - released) + gone;
    assert now.objects == start.objects - (removed + gone);
  }

  ghost function Seen(db: Session): Snapshot
    reads db
  {
    Snapshot(db.runs, db.rows, db.objects)
  }

  /** `_cleanup_loop`, for any clock, any rows and any failing deletes, those of pass n being `bad(n)`: it ends; the counters still
      balance; only expired runs are deleted, and only ones with no ledger row left, so the cascade drops
      nothing; no row goes without its object; and it leaves expired runs behind only when the oldest page
      of them holds, run by run, an object that would not go. With no delete failing, every expired run is
      gone with all its objects. */
  method CleanupLoop(db: Session, cutoff: int, bad: nat -> set<Key>)
    returns (stuck: set<RunId>, ghost deleted: set<RunId>, ghost released: set<Key>, ghost removed: set<Key>)
    requires db.Valid() && db.kept == db.Now() && db.keptRuns == db.runs
    modifies db
    ensures db.Valid() && db.kept == db.Now() && db.keptRuns == db.runs
    ensures Cleaned(old(Seen(db)), Seen(db), cutoff, deleted, released, removed, stuck)
    ensures forall r :: r in deleted ==> r in old(db.runs) && old(db.runs)[r] < cutoff
    ensures stuck == {} ==> forall r :: r in db.runs ==> db.runs[r] >= cutoff
    ensures stuck != {} ==> IsPage(stuck, db.runs, cutoff)
    ensures stuck != {} ==> exists n :: forall r :: r in stuck ==> !(HeldBy(db.rows, {r}) !! bad(n))
    ensures (forall n :: bad(n) == {}) ==>
              && stuck == {} && (forall r :: r in old(db.runs) && old(db.runs)[r] < cutoff ==> r in deleted)
              && forall k :: k in old(db.rows) && old(db.rows)[k].run.Some? && old(db.rows)[k].run.value in deleted ==>
                   k !in db.rows && k !in db.objects
  {
    hide Balanced, Cleaned;
    var pass: nat := 0;
    stuck, deleted, released, removed := {}, {}, {}, {};
    NothingCleaned(Seen(db), cutoff);
    while true
      invariant db.Valid() && db.kept == db.Now() && db.keptRuns == db.runs
      invariant Cleaned(old(Seen(db)), Seen(db), cutoff, deleted, released, removed, {})
      decreases |Expired(db.runs, cutoff)|
    {
      ghost var before := Seen(db);
      var page := OldestExpired(db.runs, cutoff);
      if page == {} {
        NoneExpired(db.runs, cutoff);
        LeftBehind(old(Seen(db)), Seen(db), cutoff, deleted, released, removed);
        return;
      }
      var ids, gone := Pass(db, page, bad(pass));
      if ids == {} {
        db.Rollback();
        stuck := page;
        StuckCleans(old(Seen(db)), before, Seen(db), cutoff, deleted, released, removed, page, gone);
        removed := removed + gone;
        DeletedExpired(old(Seen(db)), Seen(db), cutoff, deleted, released, removed, stuck);
        return;
      }
      EachPassTakesSome(before.runs, cutoff, ids);
      PassCleans(old(Seen(db)), before, Seen(db), cutoff, deleted, released, removed, page, ids, gone);
      deleted, released, removed := deleted + ids, released + gone, removed + gone;
      pass := pass + 1;
    }
  }

  lemma NoneExpired(runs: map<RunId, int>, cutoff: int)
    requires IsPage({}, runs, cutoff)
    ensures forall r :: r in runs ==> runs[r] >= cutoff
  {
    assert Expired(runs, cutoff) == {};
    assert forall r :: r in runs && runs[r] < cutoff ==> r in Expired(runs, cutoff);
  }

  lemma DeletedExpired(start: Snapshot, now: Snapshot, cutoff: int, deleted: set<RunId>, released: set<Key>,
                       removed: set<Key>, stuck: set<RunId>)
    requires Cleaned(start, now, cutoff, deleted, released, removed, stuck)
    ensures forall r :: r in deleted ==> r in start.runs && start.runs[r] < cutoff
  {
  }

  /** Where no expired run is left, all that were are deleted, and what they held is gone. */
  lemma LeftBehind(start: Snapshot, now: Snapshot, cutoff: int, deleted: set<RunId>, released: set<Key>, removed: set<Key>)
    requires Cleaned(start, now, cutoff, deleted, released, removed, {})
    requires forall r :: r in now.runs ==> now.runs[r] >= cutoff
    ensures forall r :: r in deleted ==> r in start.runs && start.runs[r] < cutoff
    ensures forall r :: r in start.runs && start.runs[r] < cutoff ==> r in deleted
    ensures forall k :: k in start.rows && start.rows[k].run.Some? && start.rows[k].run.value in deleted ==>
              k !in now.rows && k !in now.objects
  {
    assert forall r :: r in start.runs && r !in deleted ==> r in now.runs && now.runs[r] == start.runs[r];
    assert forall k :: k in now.rows && now.rows[k].run.Some? && now.rows[k].run.value in deleted ==>
                         k in HeldBy(now.rows, deleted);
    assert forall k :: k in start.rows && k !in released ==> k in now.rows && now.rows[k] == start.rows[k];
  }

  lemma NothingCleaned(s: Snapshot, cutoff: int)
    ensures Cleaned(s, s, cutoff, {}, {}, {}, {})
  {
    assert s.runs - {} == s.runs && s.rows - {} == s.rows;
  }
}
