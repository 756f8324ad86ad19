/** The storage ledger (api/app/core/ledger.py, and the counter's half in api/app/core/quota.py): one row per
    stored object, and per user a counter that must always be the sum of the user's rows. */
module Ledger {
  import opened Common

  type Key = string
  type User = string
  type RunId = string

  /** `bytes` is non-negative by the table's own constraint; `run` is None for the other lanes' objects. */
  datatype Row = Row(user: User, bytes: nat, run: Option<RunId>)

  /** `storage_objects`, by its unique object key, and `user_quotas.storage_bytes_used`. */
  datatype Books = Books(rows: map<Key, Row>, counters: map<User, int>)

  function Counter(b: Books, u: User): int {
    if u in b.counters then b.counters[u] else 0
  }

  /** The bytes of all the rows. */
  ghost function Bytes(rows: map<Key, Row>): nat
    decreases |rows|
  {
    if rows == map[] then 0
    else
      var k :| k in rows;
      Shrinks(rows, k);
      rows[k].bytes + Bytes(rows - {k})
  }

  function Owned(rows: map<Key, Row>, u: User): map<Key, Row> {
    map k | k in rows && rows[k].user == u :: rows[k]
  }

  /** The counter is the sum of the rows, for every user. */
  ghost predicate Balanced(b: Books) {
    forall u :: Counter(b, u) == Bytes(Owned(b.rows, u))
  }

  // ----- sums ----------------------------------------------------------------------------------------------

  lemma Shrinks(rows: map<Key, Row>, k: Key)
    requires k in rows
    ensures |rows - {k}| < |rows|
  {
    assert rows.Keys == (rows - {k}).Keys + {k};
  }

  /** Whichever row is taken out first. */
  lemma {:induction false} BytesRemove(rows: map<Key, Row>, k: Key)
    requires k in rows
    ensures Bytes(rows) == rows[k].bytes + Bytes(rows - {k})
    decreases |rows|
  {
    var first :| first in rows && Bytes(rows) == rows[first].bytes + Bytes(rows - {first});
    if first != k {
      Shrinks(rows, first);
      Shrinks(rows, k);
      BytesRemove(rows - {first}, k);
      BytesRemove(rows - {k}, first);
      assert rows - {first} - {k} == rows - {k} - {first};
    }
  }

  lemma BytesAdd(rows: map<Key, Row>, k: Key, r: Row)
    requires k !in rows
    ensures Bytes(rows[k := r]) == Bytes(rows) + r.bytes
  {
    BytesRemove(rows[k := r], k);
    assert rows[k := r] - {k} == rows;
  }

  lemma OwnedAdd(rows: map<Key, Row>, k: Key, r: Row, u: User)
    requires k !in rows
    ensures Bytes(Owned(rows[k := r], u)) == Bytes(Owned(rows, u)) + if r.user == u then r.bytes else 0
  {
    if r.user == u {
      BytesAdd(Owned(rows, u), k, r);
      assert Owned(rows[k := r], u) == Owned(rows, u)[k := r];
    } else {
      assert Owned(rows[k := r], u) == Owned(rows, u);
    }
  }

  lemma OwnedRemove(rows: map<Key, Row>, k: Key, u: User)
    requires k in rows
    ensures Bytes(Owned(rows, u)) == Bytes(Owned(rows - {k}, u)) + if rows[k].user == u then rows[k].bytes else 0
  {
    OwnedAdd(rows - {k}, k, rows[k], u);
    assert (rows - {k})[k := rows[k]] == rows;
  }

  // ----- the two entry points, on the books ------------------------------------------------------------------

  /** `record_object`: ON CONFLICT DO NOTHING, and a charge only with an insert. */
  function Recorded(b: Books, k: Key, r: Row): Books {
    if k in b.rows then b
    else Books(b.rows[k := r], if r.bytes > 0 then b.counters[r.user := Counter(b, r.user) + r.bytes] else b.counters)
  }

  /** One row's turn in `release_objects`, its object removed. The decrement is clamped at 0. */
  function Released(b: Books, k: Key): Books
    requires k in b.rows
  {
    var r := b.rows[k];
    Books(b.rows - {k}, if r.bytes > 0 then b.counters[r.user := Max(0, Counter(b, r.user) - r.bytes)] else b.counters)
  }

  /** What a charge charges: a new object gets its row, whose bytes go to the row's own user and to nobody
      else; a known one changes nothing. */
  lemma ChargesItsUser(b: Books, k: Key, r: Row, u: User)
    ensures k in b.rows ==> Recorded(b, k, r).rows == b.rows && Counter(Recorded(b, k, r), u) == Counter(b, u)
    ensures k !in b.rows ==> Recorded(b, k, r).rows == b.rows[k := r]
    ensures k !in b.rows ==> Counter(Recorded(b, k, r), u) == Counter(b, u) + if u == r.user then r.bytes else 0
  {
  }

  /** What a release gives back: the row goes, its bytes come off its own user and nobody else. */
  lemma ReleaseCreditsItsUser(b: Books, k: Key, u: User)
    requires Balanced(b) && k in b.rows
    ensures Released(b, k).rows == b.rows - {k}
    ensures Counter(Released(b, k), u) == Counter(b, u) - if u == b.rows[k].user then b.rows[k].bytes else 0
  {
    ClampIdle(b, k);
  }

  lemma RecordBalances(b: Books, k: Key, r: Row)
    requires Balanced(b)
    ensures Balanced(Recorded(b, k, r))
  {
    if k !in b.rows {
      forall u ensures Counter(Recorded(b, k, r), u) == Bytes(Owned(b.rows[k := r], u)) {
        OwnedAdd(b.rows, k, r, u);
      }
    }
  }

  /** In balanced books the clamp has nothing to clamp. */
  lemma ClampIdle(b: Books, k: Key)
    requires Balanced(b) && k in b.rows
    ensures Counter(b, b.rows[k].user) >= b.rows[k].bytes
  {
    OwnedRemove(b.rows, k, b.rows[k].user);
  }

  lemma ReleaseBalances(b: Books, k: Key)
    requires Balanced(b) && k in b.rows
    ensures Balanced(Released(b, k))
  {
    ClampIdle(b, k);
    forall u ensures Counter(Released(b, k), u) == Bytes(Owned(b.rows - {k}, u)) {
      OwnedRemove(b.rows, k, u);
    }
  }

  // ----- any sequence of transactions ---------------------------------------------------------------------------

  /** A failed delete changes no books, so it is no step. */
  datatype Step = Record(key: Key, row: Row) | Release(key: Key) | Commit | Rollback

  /** `now` is the open transaction's view, `kept` what is committed. */
  datatype State = State(now: Books, kept: Books)

  function Apply(s: State, step: Step): State {
    match step
    case Record(k, r) => s.(now := Recorded(s.now, k, r))
    case Release(k) => if k in s.now.rows then s.(now := Released(s.now, k)) else s
    case Commit => s.(kept := s.now)
    case Rollback => s.(now := s.kept)
  }

  function ApplyAll(s: State, steps: seq<Step>): State {
    if steps == [] then s else Apply(ApplyAll(s, steps[..|steps| - 1]), steps[|steps| - 1])
  }

  /** The next step, were it a release, would be clamped. */
  predicate Clamps(b: Books, k: Key) {
    k in b.rows && Counter(b, b.rows[k].user) < b.rows[k].bytes
  }

  /** After any sequence of charges, releases, commits and rollbacks the counters are still the sums of the
      rows, in the transaction and in what is committed, and no release was or could be clamped. */
  lemma {:induction false} Conserved(s: State, steps: seq<Step>)
    requires Balanced(s.now) && Balanced(s.kept)
    ensures var t := ApplyAll(s, steps);
            Balanced(t.now) && Balanced(t.kept) && forall k :: !Clamps(t.now, k)
  {
    hide Balanced;
    if steps != [] {
      var before, step := ApplyAll(s, steps[..|steps| - 1]), steps[|steps| - 1];
      Conserved(s, steps[..|steps| - 1]);
      if step.Record? {
        RecordBalances(before.now, step.key, step.row);
      } else if step.Release? && step.key in before.now.rows {
        ReleaseBalances(before.now, step.key);
      }
    }
    var t := ApplyAll(s, steps);
    forall k ensures !Clamps(t.now, k) {
      if k in t.now.rows {
        ClampIdle(t.now, k);
      }
    }
  }

  /** Charging twice for one object charges once, however the second call's row reads: a retried
      activity is free. */
  lemma RecordTwice(b: Books, k: Key, r: Row, again: Row)
    ensures Recorded(Recorded(b, k, r), k, again) == Recorded(b, k, r)
  {
  }

  /** A release is the inverse of the charge. */
  lemma ReleaseUndoesRecord(b: Books, k: Key, r: Row, u: User)
    requires Balanced(b) && k !in b.rows
    ensures Released(Recorded(b, k, r), k).rows == b.rows
    ensures Counter(Released(Recorded(b, k, r), k), u) == Counter(b, u)
  {
    RecordBalances(b, k, r);
    ReleaseBalances(Recorded(b, k, r), k);
    assert Released(Recorded(b, k, r), k).rows == b.rows;
  }

  // ----- the session ------------------------------------------------------------------------------------------------

  datatype ReleaseOutcome = ReleaseOutcome(released: nat, freedBytes: nat, failed: nat, failedRuns: set<RunId>)

  function Part(rows: map<Key, Row>, keys: set<Key>): map<Key, Row> {
    map k | k in keys && k in rows :: rows[k]
  }

  function RunsOf(rows: map<Key, Row>, keys: set<Key>): set<RunId> {
    set k | k in keys && k in rows && rows[k].run.Some? :: rows[k].run.value
  }

  /** What a release pass over `held` reports when exactly `gone` could be removed. */
  ghost predicate Reports(o: ReleaseOutcome, rows: map<Key, Row>, held: set<Key>, gone: set<Key>) {
    && o.released == |gone| && o.failed == |held - gone|
    && o.freedBytes == Bytes(Part(rows, gone)) && o.failedRuns == RunsOf(rows, held - gone)
  }

  function WithReleased(o: ReleaseOutcome, r: Row): ReleaseOutcome {
    o.(released := o.released + 1, freedBytes := o.freedBytes + r.bytes)
  }

  function WithFailed(o: ReleaseOutcome, r: Row): ReleaseOutcome {
    o.(failed := o.failed + 1, failedRuns := if r.run.Some? then o.failedRuns + {r.run.value} else o.failedRuns)
  }

  lemma ReportGone(o: ReleaseOutcome, rows: map<Key, Row>, held: set<Key>, gone: set<Key>, k: Key)
    requires k in rows && k !in held && gone <= held && Reports(o, rows, held, gone)
    ensures Reports(WithReleased(o, rows[k]), rows, held + {k}, gone + {k})
  {
    hide RunsOf;
    assert Part(rows, gone + {k}) == Part(rows, gone)[k := rows[k]];
    BytesAdd(Part(rows, gone), k, rows[k]);
    assert held + {k} - (gone + {k}) == held - gone;
  }

  lemma RunsOfAdd(rows: map<Key, Row>, keys: set<Key>, k: Key)
    requires k in rows
    ensures RunsOf(rows, keys + {k}) == if rows[k].run.Some? then RunsOf(rows, keys) + {rows[k].run.value} else RunsOf(rows, keys)
  {
  }

  lemma ReportFailed(o: ReleaseOutcome, rows: map<Key, Row>, held: set<Key>, gone: set<Key>, k: Key)
    requires k in rows && k !in held && gone <= held && Reports(o, rows, held, gone)
    ensures Reports(WithFailed(o, rows[k]), rows, held + {k}, gone)
  {
    hide RunsOf, Bytes, Part;
    var left := held - gone;
    RunsOfAdd(rows, left, k);
    assert held + {k} - gone == left + {k} && |left + {k}| == |left| + 1;
  }

  /** The database as one session sees it, and the bucket, which no rollback restores. */
  class Session {
    var rows: map<Key, Row>
    var counters: map<User, int>
    var runs: map<RunId, int>     // job_runs: when each was created
    var objects: set<Key>
    var kept: Books               // what is committed
    var keptRuns: map<RunId, int>

    ghost function Now(): Books
      reads this
    {
      Books(rows, counters)
    }

    ghost predicate Valid()
      reads this
    {
      Balanced(Now()) && Balanced(kept)
    }

    method RecordObject(user: User, key: Key, size: nat, run: Option<RunId>) returns (isNew: bool)
      requires Valid()
      modifies `rows, `counters
      ensures Valid() && Now() == Recorded(old(Now()), key, Row(user, size, run))
      ensures isNew <==> key !in old(rows)
      ensures isNew ==> rows == old(rows)[key := Row(user, size, run)]
      ensures isNew ==> forall u :: Counter(Now(), u) == old(Counter(Now(), u)) + if u == user then size else 0
      ensures !isNew ==> rows == old(rows) && counters == old(counters)
    {
      RecordBalances(Now(), key, Row(user, size, run));
      if key in rows {
        return false;
      }
      rows := rows[key := Row(user, size, run)];
      if size > 0 {
        IncrementStorageBytes(user, size);
      }
      isNew := true;
    }

    method IncrementStorageBytes(user: User, size: int)
      modifies `counters
      ensures counters == old(counters)[user := old(Counter(Now(), user)) + size]
    {
      counters := counters[user := (if user in counters then counters[user] else 0) + size];
    }

    method DecrementStorageBytes(user: User, size: int)
      modifies `counters
      ensures counters == old(counters)[user := if user in old(counters) then Max(0, old(counters)[user] - size) else 0]
    {
      counters := counters[user := if user in counters then Max(0, counters[user] - size) else 0];
    }

    /** `delete_minio_object`: fails on the `stuck` ones, and then the object is still there. Removing what is
        not there succeeds. */
    method DeleteObject(key: Key, stuck: set<Key>) returns (ok: bool)
      modifies `objects
      ensures ok <==> key !in stuck
      ensures objects == if ok then old(objects) - {key} else old(objects)
    {
      ok := key !in stuck;
      if ok {
        objects := objects - {key};
      }
    }

    method ReleaseOne(key: Key)
      requires Valid() && key in rows
      modifies `rows, `counters
      ensures Valid() && Now() == Released(old(Now()), key)
      ensures rows == old(rows) - {key}
      ensures forall u :: Counter(Now(), u) ==
                old(Counter(Now(), u)) - if u == old(rows)[key].user then old(rows)[key].bytes else 0
    {
      ReleaseBalances(Now(), key);
      ClampIdle(Now(), key);
      var row := rows[key];
      if row.bytes > 0 {
        DecrementStorageBytes(row.user, row.bytes);
      }
      rows := rows - {key};
    }

    /** `release_objects`, the rows in any order and any of the deletes failing: the rows that go are
        exactly those whose object could be removed, the counters follow them, and the outcome reports
        both sides. */
    method ReleaseObjects(held: set<Key>, stuck: set<Key>) returns (outcome: ReleaseOutcome, ghost gone: set<Key>)
      requires Valid() && held <= rows.Keys
      modifies `rows, `counters, `objects
      ensures Valid() && gone == held - stuck
      ensures rows == old(rows) - gone && objects == old(objects) - gone
      ensures Reports(outcome, old(rows), held, gone)
    {
      hide Balanced, Bytes, Reports, WithReleased, WithFailed, Tried;
      TriesNone(held, stuck);
      var todo := held;
      outcome, gone := ReleaseOutcome(0, 0, 0, {}), {};
      NothingReported(rows);
      while todo != {}
        invariant Valid() && todo <= held && gone == Tried(held, todo, stuck) && gone <= held - todo
        invariant rows == old(rows) - gone && objects == old(objects) - gone
        invariant Reports(outcome, old(rows), held - todo, gone)
        decreases |todo|
      {
        var key :| key in todo;
        var ok;
        ghost var before := outcome;
        outcome, ok := ReleaseRow(key, stuck, outcome);
        TriesOne(held, todo, stuck, key);
        if ok {
          ReportGone(before, old(rows), held - todo, gone, key);
          gone := gone + {key};
        } else {
          ReportFailed(before, old(rows), held - todo, gone, key);
        }
        todo := todo - {key};
      }
      TriesAll(held, stuck);
    }

    method ReleaseRow(key: Key, stuck: set<Key>, before: ReleaseOutcome) returns (outcome: ReleaseOutcome, ok: bool)
      requires Valid() && key in rows
      modifies `rows, `counters, `objects
      ensures Valid() && (ok <==> key !in stuck)
      ensures rows == if ok then old(rows) - {key} else old(rows)
      ensures objects == if ok then old(objects) - {key} else old(objects)
      ensures outcome == if ok then WithReleased(before, old(rows)[key]) else WithFailed(before, old(rows)[key])
    {
      hide Balanced;
      var row := rows[key];
      ok := DeleteObject(key, stuck);
      if !ok {
        return before.(failed := before.failed + 1,
                       failedRuns := if row.run.Some? then before.failedRuns + {row.run.value} else before.failedRuns), ok;
      }
      ReleaseOne(key);
      outcome := before.(released := before.released + 1, freedBytes := before.freedBytes + row.bytes);
    }

    method Commit()
      requires Valid()
      modifies `kept, `keptRuns
      ensures Valid() && kept == Now() && keptRuns == runs
    {
      kept, keptRuns := Books(rows, counters), runs;
    }

    method Rollback()
      requires Valid()
      modifies `rows, `counters, `runs
      ensures Valid() && Now() == kept && runs == keptRuns
    {
      rows, counters, runs := kept.rows, kept.counters, keptRuns;
    }
  }

  /** The objects gone once all but `todo` have been tried. */
  ghost function Tried(held: set<Key>, todo: set<Key>, stuck: set<Key>): set<Key> {
    held - todo - stuck
  }

  lemma TriesNone(held: set<Key>, stuck: set<Key>)
    ensures held - held == {} == Tried(held, held, stuck)
  {
  }

  lemma TriesAll(held: set<Key>, stuck: set<Key>)
    ensures held - {} == held && Tried(held, {}, stuck) == held - stuck
  {
  }

  lemma TriesOne(held: set<Key>, todo: set<Key>, stuck: set<Key>, key: Key)
    requires key in todo && todo <= held
    ensures held - todo + {key} == held - (todo - {key}) && key !in held - todo
    ensures Tried(held, todo - {key}, stuck) ==
            if key in stuck then Tried(held, todo, stuck) else Tried(held, todo, stuck) + {key}
  {
  }

  lemma NothingReported(rows: map<Key, Row>)
    ensures Reports(ReleaseOutcome(0, 0, 0, {}), rows, {}, {})
  {
    assert Part(rows, {}) == map[];
  }
}
