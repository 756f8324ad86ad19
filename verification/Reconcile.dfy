/** The auditor (api/scripts/reconcile_storage_ledger.py): brings objects, ledger rows and counters to agree,
    or, as a dry run, foretells the counters. One bucket, so a row's key is its object's. */
module Reconcile {
  import opened Common
  import opened Ledger

  /** Who a key belongs to, found from the row it names (a job run or a crawl page). */
  datatype Attribution = Attribution(user: User, run: Option<RunId>)

  type Attributions = map<Key, Attribution>

  const HISTORY := "history/"
  const SCREENSHOTS := "screenshots/"

  predicate Scanned(key: Key) {
    HISTORY <= key || SCREENSHOTS <= key
  }

  /** What the two listings show: every object under a prefix, with its size. */
  function Listed(bucket: map<Key, nat>): map<Key, nat> {
    map k | k in bucket && Scanned(k) :: bucket[k]
  }

  // ----- what the rows should become -----------------------------------------------------------------------

  /** After the walk: a listed object's row has the listed size, an attributable one has a row. */
  function Walked(rows: map<Key, Row>, listed: map<Key, nat>, who: Attributions): map<Key, Row> {
    map k | k in rows.Keys + listed.Keys && (k in rows || k in who) ::
      if k !in listed then rows[k]
      else if k in rows then rows[k].(bytes := listed[k])
      else Row(who[k].user, listed[k], who[k].run)
  }

  function Orphans(rows: map<Key, Row>, listed: map<Key, nat>, who: Attributions): set<Key> {
    set k | k in listed && k !in rows && k !in who
  }

  /** What storage answers besides: stats that fail, deletes that fail, and objects somebody else removes
      after the listing. A quiet bucket is one where `vanished` is empty. */
  datatype Trouble = Trouble(unreadable: set<Key>, undeletable: set<Key>, vanished: set<Key>)

  const NO_TROUBLE := Trouble({}, {}, {})

  /** stat answers NoSuchKey. */
  predicate Missing(k: Key, bucket: map<Key, nat>, t: Trouble) {
    k !in t.unreadable && (k !in bucket || k in t.vanished)
  }

  function Dangling(keys: set<Key>, bucket: map<Key, nat>, t: Trouble): set<Key> {
    set k | k in keys && Missing(k, bucket, t)
  }

  function Target(rows: map<Key, Row>, bucket: map<Key, nat>, who: Attributions, t: Trouble): map<Key, Row> {
    var walked := Walked(rows, Listed(bucket), who);
    walked - Dangling(walked.Keys, bucket, t)
  }

  ghost function Total(rows: map<Key, Row>, u: User): nat {
    Bytes(Owned(rows, u))
  }

  function CounterIn(counters: map<User, int>, u: User): int {
    if u in counters then counters[u] else 0
  }

  /** Every counter that is off, with what it is and what it should be: the rows' total, and what is
      pending. */
  ghost predicate AreDecisions(d: map<User, (int, int)>, counters: map<User, int>, rows: map<Key, Row>, pending: map<User, int>) {
    forall u :: IsDecision(d, u, CounterIn(counters, u), Total(rows, u) + CounterIn(pending, u))
  }

  predicate IsDecision(d: map<User, (int, int)>, u: User, before: int, after: int) {
    if u in d then d[u] == (before, after) && before != after else before == after
  }

  // ----- the walk, one object at a time ------------------------------------------------------------------------

  lemma WalkedStep(rows: map<Key, Row>, part: map<Key, nat>, who: Attributions, k: Key, size: nat)
    requires k !in part
    ensures Walked(Walked(rows, part, who), map[k := size], who) == Walked(rows, part[k := size], who)
    ensures k in Walked(rows, part, who) <==> k in rows
    ensures k in rows ==> Walked(rows, part, who)[k] == rows[k]
  {
  }

  /** How far one object's row moves its owner's total. */
  function Move(rows: map<Key, Row>, who: Attributions, k: Key, size: nat, u: User): int {
    if k in rows then (if rows[k].user == u then size - rows[k].bytes else 0)
    else if k in who && who[k].user == u then size
    else 0
  }

  lemma TotalChange(rows: map<Key, Row>, k: Key, r: Row, u: User)
    ensures Total(rows[k := r], u) ==
            Total(rows, u) - (if k in rows && rows[k].user == u then rows[k].bytes else 0) + if r.user == u then r.bytes else 0
  {
    if k in rows {
      OwnedRemove(rows, k, u);
      OwnedAdd(rows - {k}, k, r, u);
      assert (rows - {k})[k := r] == rows[k := r];
    } else {
      OwnedAdd(rows, k, r, u);
    }
  }

  lemma WalkMovesTotal(rows: map<Key, Row>, who: Attributions, k: Key, size: nat, u: User)
    ensures Total(Walked(rows, map[k := size], who), u) == Total(rows, u) + Move(rows, who, k, size, u)
  {
    var after := Walked(rows, map[k := size], who);
    if k in after {
      assert after == rows[k := after[k]];
      TotalChange(rows, k, after[k], u);
    } else {
      assert after == rows;
    }
  }

  lemma DropMovesTotal(rows: map<Key, Row>, gone: set<Key>, k: Key, u: User)
    requires k in rows && k !in gone
    ensures Total(Part(rows, gone + {k}), u) == Total(Part(rows, gone), u) + if rows[k].user == u then rows[k].bytes else 0
  {
    assert Part(rows, gone + {k}) == Part(rows, gone)[k := rows[k]];
    TotalChange(Part(rows, gone), k, rows[k], u);
  }

  /** Rows split into those that go and those that stay. */
  lemma {:induction false} TotalSplit(rows: map<Key, Row>, gone: set<Key>, u: User)
    ensures Total(rows, u) == Total(Part(rows, gone), u) + Total(rows - gone, u)
    decreases |rows|
  {
    if rows == map[] {
      assert Owned(rows, u) == map[] && Owned(Part(rows, gone), u) == map[] && Owned(rows - gone, u) == map[];
    } else {
      hide Bytes;
      var k :| k in rows;
      Shrinks(rows, k);
      TotalSplit(rows - {k}, gone, u);
      OwnedRemove(rows, k, u);
      if k in gone {
        assert Part(rows, gone) - {k} == Part(rows - {k}, gone) && rows - {k} - gone == rows - gone;
        OwnedRemove(Part(rows, gone), k, u);
      } else {
        assert (rows - gone) - {k} == rows - {k} - gone && Part(rows - {k}, gone) == Part(rows, gone);
        OwnedRemove(rows - gone, k, u);
      }
    }
  }

  lemma WalkFolds(rows: map<Key, Row>, done: map<Key, nat>, who: Attributions, k: Key, size: nat, u: User)
    requires k !in done
    ensures Total(Walked(rows, done[k := size], who), u) ==
            Total(Walked(rows, done, who), u) + Move(rows, who, k, size, u)
  {
    hide Total;
    WalkedStep(rows, done, who, k, size);
    WalkMovesTotal(Walked(rows, done, who), who, k, size, u);
  }

  lemma OrphansFold(rows: map<Key, Row>, done: map<Key, nat>, who: Attributions, k: Key, size: nat)
    requires k !in done
    ensures Orphans(rows, done[k := size], who) == Orphans(rows, done, who) + Orphans(rows, map[k := size], who)
    ensures Orphans(Walked(rows, done, who), map[k := size], who) == Orphans(rows, map[k := size], who)
  {
  }

  datatype View = View(rows: map<Key, Row>, bucket: map<Key, nat>, pending: map<User, int>, orphans: set<Key>)

  /** What one object of the listing does to the view, for real or in the report only. */
  ghost predicate OneWalked(apply: bool, who: Attributions, t: Trouble, v: View, v': View, key: Key, size: nat) {
    var orphan := Orphans(v.rows, map[key := size], who);
    && v'.orphans == v.orphans + orphan
    && (apply ==> v'.rows == Walked(v.rows, map[key := size], who) && v'.pending == v.pending)
    && (apply ==> v'.bucket == v.bucket - (orphan - t.undeletable))
    && (!apply ==> v'.rows == v.rows && v'.bucket == v.bucket)
    && (!apply ==> forall u :: CounterIn(v'.pending, u) == CounterIn(v.pending, u) + Move(v.rows, who, key, size, u))
  }

  ghost predicate WalkedSoFar(apply: bool, who: Attributions, t: Trouble, v: View, v': View, done: map<Key, nat>) {
    && v'.orphans == Orphans(v.rows, done, who)
    && (apply ==> v'.rows == Walked(v.rows, done, who) && v'.pending == v.pending)
    && (apply ==> v'.bucket == v.bucket - (Orphans(v.rows, done, who) - t.undeletable))
    && (!apply ==> v'.rows == v.rows && v'.bucket == v.bucket)
    && (!apply ==> forall u :: CounterIn(v'.pending, u) == Total(Walked(v.rows, done, who), u) - Total(v.rows, u))
  }

  lemma NothingWalked(apply: bool, who: Attributions, t: Trouble, v: View)
    requires v.pending == map[] && v.orphans == {}
    ensures WalkedSoFar(apply, who, t, v, v, map[])
  {
    hide Total;
    assert Walked(v.rows, map[], who) == v.rows && Orphans(v.rows, map[], who) == {};
    assert v.bucket - ({} - t.undeletable) == v.bucket;
  }

  lemma WalkedFurther(apply: bool, who: Attributions, t: Trouble, first: View, v: View, v': View,
                      done: map<Key, nat>, k: Key, size: nat)
    requires k !in done && WalkedSoFar(apply, who, t, first, v, done) && OneWalked(apply, who, t, v, v', k, size)
    ensures WalkedSoFar(apply, who, t, first, v', done[k := size])
  {
    hide Total, Walked, Orphans, Move;
    WalkedStep(first.rows, done, who, k, size);
    OrphansFold(first.rows, done, who, k, size);
    forall u ensures Total(Walked(first.rows, done[k := size], who), u) ==
                     Total(Walked(first.rows, done, who), u) + Move(first.rows, who, k, size, u)
    {
      WalkFolds(first.rows, done, who, k, size, u);
    }
  }

  // ----- the rows whose object is gone ----------------------------------------------------------------------------

  /** Of `seen`, the dangling rows are dropped, or deducted in the report. */
  ghost predicate DroppedSoFar(apply: bool, t: Trouble, v: View, v': View, seen: set<Key>) {
    var gone := Dangling(seen, v.bucket, t);
    && v'.bucket == v.bucket && v'.orphans == v.orphans
    && (apply ==> v'.rows == v.rows - gone && v'.pending == v.pending)
    && (!apply ==> v'.rows == v.rows)
    && (!apply ==> forall u :: CounterIn(v'.pending, u) == CounterIn(v.pending, u) - Total(Part(v.rows, gone), u))
  }

  lemma NothingDropped(apply: bool, t: Trouble, v: View)
    ensures DroppedSoFar(apply, t, v, v, {})
  {
    assert Dangling({}, v.bucket, t) == {};
    assert v.rows - {} == v.rows && forall u :: Owned(Part(v.rows, {}), u) == map[];
  }

  ghost predicate OneDropped(apply: bool, v: View, v': View, row: Row, key: Key, gone: bool) {
    && v'.bucket == v.bucket && v'.orphans == v.orphans
    && (!gone ==> v' == v)
    && (gone && apply ==> v'.rows == v.rows - {key} && v'.pending == v.pending)
    && (gone && !apply ==> v'.rows == v.rows)
    && (gone && !apply ==>
          forall u :: CounterIn(v'.pending, u) == CounterIn(v.pending, u) - if row.user == u then row.bytes else 0)
  }

  lemma DroppedFurther(apply: bool, t: Trouble, first: View, v: View, v': View, seen: set<Key>, k: Key)
    requires k in first.rows && k !in seen && DroppedSoFar(apply, t, first, v, seen)
    requires OneDropped(apply, v, v', first.rows[k], k, Missing(k, first.bucket, t))
    ensures DroppedSoFar(apply, t, first, v', seen + {k})
  {
    hide Total;
    var gone := Dangling(seen, first.bucket, t);
    if Missing(k, first.bucket, t) {
      assert Dangling(seen + {k}, first.bucket, t) == gone + {k};
      assert first.rows - gone - {k} == first.rows - (gone + {k});
      forall u ensures Total(Part(first.rows, gone + {k}), u) ==
                       Total(Part(first.rows, gone), u) + if first.rows[k].user == u then first.rows[k].bytes else 0
      {
        DropMovesTotal(first.rows, gone, k, u);
      }
    } else {
      assert Dangling(seen + {k}, first.bucket, t) == gone;
    }
  }

  // ----- the two runs compared -------------------------------------------------------------------------------

  /** What the dry run leaves pending, for every user: the walk's moves, less the rows it would drop as it
      finds them. */
  ghost predicate Foreseen(pending: map<User, int>, rows: map<Key, Row>, bucket: map<Key, nat>, who: Attributions, t: Trouble) {
    forall u :: CounterIn(pending, u) ==
                Total(Walked(rows, Listed(bucket), who), u) - Total(rows, u) - Total(Part(rows, Dangling(rows.Keys, bucket, t)), u)
  }

  /** Listed objects that are gone by the time they are statted. */
  function Vanishing(bucket: map<Key, nat>, t: Trouble): set<Key> {
    set k | k in Listed(bucket) && Missing(k, bucket, t)
  }

  /** What the walk moves a user's total by for these listed objects, all told. */
  ghost function Moves(rows: map<Key, Row>, who: Attributions, listed: map<Key, nat>, keys: set<Key>, u: User): int
    requires keys <= listed.Keys
  {
    if keys == {} then 0
    else
      var k :| k in keys;
      Move(rows, who, k, listed[k], u) + Moves(rows, who, listed, keys - {k}, u)
  }

  lemma {:induction false} MovesRemove(rows: map<Key, Row>, who: Attributions, listed: map<Key, nat>, keys: set<Key>, k: Key, u: User)
    requires k in keys && keys <= listed.Keys
    ensures Moves(rows, who, listed, keys, u) ==
            Move(rows, who, k, listed[k], u) + Moves(rows, who, listed, keys - {k}, u)
    decreases keys
  {
    hide Move;
    var first :| first in keys && Moves(rows, who, listed, keys, u) ==
                                  Move(rows, who, first, listed[first], u) + Moves(rows, who, listed, keys - {first}, u);
    if first != k {
      MovesRemove(rows, who, listed, keys - {first}, k, u);
      MovesRemove(rows, who, listed, keys - {k}, first, u);
      assert keys - {first} - {k} == keys - {k} - {first};
    }
  }

  /** The moves of the objects that vanish come to nothing, user by user. */
  ghost predicate VanishUnmoved(rows: map<Key, Row>, bucket: map<Key, nat>, who: Attributions, t: Trouble) {
    forall u :: Moves(rows, who, Listed(bucket), Vanishing(bucket, t), u) == 0
  }

  /** Part of the rows, walked, weighs what it did and its listed objects' moves. */
  lemma {:induction false} PartMoves(rows: map<Key, Row>, who: Attributions, listed: map<Key, nat>, keys: set<Key>, u: User)
    ensures Total(Part(Walked(rows, listed, who), keys), u) ==
            Total(Part(rows, keys), u) + Moves(rows, who, listed, keys * listed.Keys, u)
    decreases keys
  {
    var walked := Walked(rows, listed, who);
    if keys == {} {
      assert Part(walked, keys) == map[] && Part(rows, keys) == map[] && keys * listed.Keys == {};
    } else {
      hide Total, Moves, Walked;
      var k :| k in keys;
      var rest := keys - {k};
      PartMoves(rows, who, listed, rest, u);
      WalkedAt(rows, listed, who, k);
      assert rest + {k} == keys;
      PartGrows(walked, rest, k, u);
      PartGrows(rows, rest, k, u);
      if k in listed {
        MovesRemove(rows, who, listed, keys * listed.Keys, k, u);
        assert keys * listed.Keys - {k} == rest * listed.Keys;
      } else {
        assert keys * listed.Keys == rest * listed.Keys;
      }
    }
  }

  lemma WalkedAt(rows: map<Key, Row>, listed: map<Key, nat>, who: Attributions, k: Key)
    ensures var walked := Walked(rows, listed, who);
            && (k in walked <==> k in rows || (k in listed && k in who))
            && (k in rows ==> walked[k] == if k in listed then rows[k].(bytes := listed[k]) else rows[k])
            && (k !in rows && k in listed && k in who ==> walked[k] == Row(who[k].user, listed[k], who[k].run))
  {
  }

  lemma PartGrows(rows: map<Key, Row>, keys: set<Key>, k: Key, u: User)
    requires k !in keys
    ensures Total(Part(rows, keys + {k}), u) ==
            Total(Part(rows, keys), u) + if k in rows && rows[k].user == u then rows[k].bytes else 0
  {
    if k in rows {
      DropMovesTotal(rows, keys, k, u);
    } else {
      assert Part(rows, keys + {k}) == Part(rows, keys);
    }
  }

  /** How far the dry run's total for a user is from the repair's: the moves of the objects that vanish. */
  lemma TotalsAgreeExactly(rows: map<Key, Row>, bucket: map<Key, nat>, who: Attributions, t: Trouble,
                           pending: map<User, int>, u: User)
    requires Foreseen(pending, rows, bucket, who, t)
    ensures Total(rows, u) + CounterIn(pending, u) - Total(Target(rows, bucket, who, t), u) ==
            Moves(rows, who, Listed(bucket), Vanishing(bucket, t), u)
  {
    hide Total, Moves;
    var listed := Listed(bucket);
    var walked := Walked(rows, listed, who);
    var gone := Dangling(walked.Keys, bucket, t);
    TotalSplit(walked, gone, u);
    assert Part(rows, gone) == Part(rows, Dangling(rows.Keys, bucket, t));
    var all := gone + Vanishing(bucket, t);
    PartMoves(rows, who, listed, all, u);
    assert Part(walked, all) == Part(walked, gone) && Part(rows, all) == Part(rows, gone);
    assert all * listed.Keys == Vanishing(bucket, t);
  }

  /** The dry run's `(user, before, after)` are those the repair then makes, under the same answers from
      storage, exactly when what the walk would move for the objects that vanish between listing and stat
      comes to nothing for every user. */
  lemma DryRunForetellsExactly(rows: map<Key, Row>, counters: map<User, int>, bucket: map<Key, nat>, who: Attributions,
                               t: Trouble, pending: map<User, int>, dry: map<User, (int, int)>, done: map<User, (int, int)>)
    requires Foreseen(pending, rows, bucket, who, t)
    requires AreDecisions(dry, counters, rows, pending)
    requires AreDecisions(done, counters, Target(rows, bucket, who, t), map[])
    ensures dry == done <==> VanishUnmoved(rows, bucket, who, t)
  {
    hide Target, Foreseen, Total, Moves;
    forall u
      ensures dry == done ==> Total(rows, u) + CounterIn(pending, u) == Total(Target(rows, bucket, who, t), u)
    {
      assert IsDecision(dry, u, CounterIn(counters, u), Total(rows, u) + CounterIn(pending, u));
      assert IsDecision(done, u, CounterIn(counters, u), Total(Target(rows, bucket, who, t), u) + CounterIn(map[], u));
    }
    forall u
      ensures Total(rows, u) + CounterIn(pending, u) - Total(Target(rows, bucket, who, t), u) ==
              Moves(rows, who, Listed(bucket), Vanishing(bucket, t), u)
    {
      TotalsAgreeExactly(rows, bucket, who, t, pending, u);
    }
    if VanishUnmoved(rows, bucket, who, t) {
      SameTotalsSameDecisions(dry, done, counters, rows, pending, Target(rows, bucket, who, t));
    }
  }

  lemma SameTotalsSameDecisions(d: map<User, (int, int)>, e: map<User, (int, int)>, counters: map<User, int>,
                                rows: map<Key, Row>, pending: map<User, int>, target: map<Key, Row>)
    requires AreDecisions(d, counters, rows, pending) && AreDecisions(e, counters, target, map[])
    requires forall u :: Total(rows, u) + CounterIn(pending, u) == Total(target, u)
    ensures d == e
  {
    hide Total;
    forall u ensures (u in d <==> u in e) && (u in d ==> d[u] == e[u]) {
      assert IsDecision(d, u, CounterIn(counters, u), Total(rows, u) + CounterIn(pending, u));
      assert IsDecision(e, u, CounterIn(counters, u), Total(target, u) + CounterIn(map[], u));
    }
  }

  /** The row of a listed object is as it should be, or it is nobody's. */
  predicate InOrder(rows: map<Key, Row>, who: Attributions, k: Key, size: nat) {
    if k in rows then rows[k].bytes == size else k !in who || size == 0
  }

  /** Objects that vanish with their rows in order mislead nobody, whatever stats and deletes fail. */
  lemma {:induction false} UnmovedIfInOrder(rows: map<Key, Row>, who: Attributions, listed: map<Key, nat>, keys: set<Key>, u: User)
    requires keys <= listed.Keys && forall k :: k in keys ==> InOrder(rows, who, k, listed[k])
    ensures Moves(rows, who, listed, keys, u) == 0
    decreases keys
  {
    if keys != {} {
      var k :| k in keys;
      MovesRemove(rows, who, listed, keys, k, u);
      UnmovedIfInOrder(rows, who, listed, keys - {k}, u);
    }
  }

  /** A quiet bucket, where nothing listed vanishes, above all. */
  lemma QuietWeighsTheSame(rows: map<Key, Row>, bucket: map<Key, nat>, who: Attributions, t: Trouble)
    requires forall k :: k in t.vanished && k in Listed(bucket) ==> InOrder(rows, who, k, bucket[k])
    ensures VanishUnmoved(rows, bucket, who, t)
  {
    forall u ensures Moves(rows, who, Listed(bucket), Vanishing(bucket, t), u) == 0 {
      UnmovedIfInOrder(rows, who, Listed(bucket), Vanishing(bucket, t), u);
    }
  }

  /** And one that does mislead: an unrecorded object removed after it was listed. The dry run announces
      five bytes for its owner; the repair finds nothing to change. */
  lemma VanishingObjectMisleads()
    returns (rows: map<Key, Row>, bucket: map<Key, nat>, who: Attributions, t: Trouble, pending: map<User, int>,
             dry: map<User, (int, int)>, done: map<User, (int, int)>)
    ensures Foreseen(pending, rows, bucket, who, t) && AreDecisions(dry, map[], rows, pending)
    ensures AreDecisions(done, map[], Target(rows, bucket, who, t), map[])
    ensures dry == map["u" := (0, 5)] && done == map[]
  {
    var k := "history/a";
    rows, bucket, who, t := map[], map[k := 5], map[k := Attribution("u", None)], Trouble({}, {}, {k});
    pending, dry, done := map["u" := 5], map["u" := (0, 5)], map[];
    assert HISTORY <= k;
    var walked := Walked(rows, Listed(bucket), who);
    assert Dangling(walked.Keys, bucket, t) == {k};
    assert walked == map[k := Row("u", 5, None)] == rows[k := Row("u", 5, None)];
    assert Target(rows, bucket, who, t) == rows && Part(rows, Dangling(rows.Keys, bucket, t)) == rows;
    forall u ensures Total(rows, u) == 0 && Total(walked, u) == if u == "u" then 5 else 0 {
      assert Owned(rows, u) == map[];
      TotalChange(rows, k, Row("u", 5, None), u);
    }
    hide Total;
    assert forall u :: IsDecision(dry, u, CounterIn(map[], u), Total(rows, u) + CounterIn(pending, u));
  }

  // ----- after a repair ------------------------------------------------------------------------------------------

  function Left(rows: map<Key, Row>, bucket: map<Key, nat>, who: Attributions, t: Trouble): map<Key, nat> {
    bucket - (Orphans(rows, Listed(bucket), who) - t.undeletable)
  }

  /** What a repair makes of any one key, whatever fails meanwhile. A row stays unless its stat finds the object
      gone; it keeps its user and run, and takes the size listed; a listed object somebody owns gets a row of
      the owner's; a listed one nobody owns is deleted, if it can be; and nothing else is touched. */
  lemma RepairExactly(rows: map<Key, Row>, bucket: map<Key, nat>, who: Attributions, t: Trouble, k: Key)
    ensures var rows', bucket' := Target(rows, bucket, who, t), Left(rows, bucket, who, t);
            var listed := k in bucket && ("history/" <= k || "screenshots/" <= k);
            && (k in rows' <==>
                  && (k in rows || (listed && k in who))
                  && (k in t.unreadable || (k in bucket && k !in t.vanished)))
            && (k in rows' && k in rows ==>
                  && rows'[k].user == rows[k].user && rows'[k].run == rows[k].run
                  && rows'[k].bytes == if listed then bucket[k] else rows[k].bytes)
            && (k in rows' && k !in rows ==> rows'[k] == Row(who[k].user, bucket[k], who[k].run))
            && (k in bucket' <==> k in bucket && (!listed || k in rows || k in who || k in t.undeletable))
            && (k in bucket' ==> bucket'[k] == bucket[k])
  {
  }

  /** With a quiet bucket and no failing call: every row names an object that is there, of its listed size,
      and every object under the prefixes has its row. */
  lemma RepairAgrees(rows: map<Key, Row>, bucket: map<Key, nat>, who: Attributions, k: Key)
    ensures var rows', bucket' := Target(rows, bucket, who, NO_TROUBLE), Left(rows, bucket, who, NO_TROUBLE);
            && (k in rows' ==> k in bucket' && (Scanned(k) ==> rows'[k].bytes == bucket'[k]))
            && (k in bucket' && Scanned(k) ==> k in rows')
            && (k in bucket && k !in bucket' ==> k !in who && k !in rows)
  {
  }

  /** A second repair under the same answers from a quiet bucket finds nothing to do: no row, no object,
      and, the counters being the sums of the rows, no decision. */
  lemma SecondRepairIsIdle(rows: map<Key, Row>, bucket: map<Key, nat>, who: Attributions, t: Trouble,
                           counters: map<User, int>, again: map<User, (int, int)>)
    requires t.vanished == {} && Balanced(Books(Target(rows, bucket, who, t), counters))
    requires AreDecisions(again, counters, Target(Target(rows, bucket, who, t), Left(rows, bucket, who, t), who, t), map[])
    ensures var rows', bucket' := Target(rows, bucket, who, t), Left(rows, bucket, who, t);
            && Target(rows', bucket', who, t) == rows'
            && Left(rows', bucket', who, t) == bucket'
    ensures again == map[]
  {
    var rows', bucket' := Target(rows, bucket, who, t), Left(rows, bucket, who, t);
    TargetIsFixed(rows, bucket, who, t);
    hide Target, Left, Bytes;
    forall u ensures u !in again {
      assert Counter(Books(rows', counters), u) == Total(rows', u);
      assert IsDecision(again, u, CounterIn(counters, u), Total(rows', u) + CounterIn(map[], u));
    }
  }

  lemma TargetIsFixed(rows: map<Key, Row>, bucket: map<Key, nat>, who: Attributions, t: Trouble)
    requires t.vanished == {}
    ensures var rows', bucket' := Target(rows, bucket, who, t), Left(rows, bucket, who, t);
            Target(rows', bucket', who, t) == rows' && Left(rows', bucket', who, t) == bucket'
  {
    var rows', bucket' := Target(rows, bucket, who, t), Left(rows, bucket, who, t);
    var walked := Walked(rows', Listed(bucket'), who);
    assert walked == rows';
    assert Dangling(walked.Keys, bucket', t) == {};
  }

  // ----- the script ------------------------------------------------------------------------------------------------

  class Report {
    var orphanKeys: set<Key>
    var pendingDelta: map<User, int>

    constructor ()
      ensures orphanKeys == {} && pendingDelta == map[]
    {
      orphanKeys, pendingDelta := {}, map[];
    }

    method Defer(user: User, delta: int)
      modifies `pendingDelta
      ensures forall u :: CounterIn(pendingDelta, u) == CounterIn(old(pendingDelta), u) + if u == user then delta else 0
    {
      pendingDelta := pendingDelta[user := (if user in pendingDelta then pendingDelta[user] else 0) + delta];
    }
  }

  class Auditor {
    const who: Attributions
    const trouble: Trouble
    var rows: map<Key, Row>
    var counters: map<User, int>
    var bucket: map<Key, nat>

    ghost function Seen(report: Report): View
      reads this, report
    {
      View(rows, bucket, report.pendingDelta, report.orphanKeys)
    }

    /** One listed object. */
    method WalkOne(key: Key, size: nat, apply: bool, report: Report)
      modifies `rows, `bucket, report
      ensures OneWalked(apply, who, trouble, old(Seen(report)), Seen(report), key, size)
    {
      if key in rows {
        var row := rows[key];
        if row.bytes != size {
          if apply {
            rows := rows[key := row.(bytes := size)];
          } else {
            report.Defer(row.user, size - row.bytes);
          }
        }
        return;
      }
      if key !in who {
        report.orphanKeys := report.orphanKeys + {key};
        if apply && key !in trouble.undeletable {
          bucket := bucket - {key};
        }
        return;
      }
      if apply {
        rows := rows[key := Row(who[key].user, size, who[key].run)];
      } else {
        report.Defer(who[key].user, size);
      }
    }
  
    /** `_walk_bucket`: an apply leaves the walked rows; a dry run defers, user by user, what they would
        move. */
    method WalkBucket(apply: bool, report: Report)
      requires report.orphanKeys == {} && report.pendingDelta == map[]
      modifies `rows, `bucket, report
      ensures WalkedSoFar(apply, who, trouble, old(Seen(report)), Seen(report), Listed(old(bucket)))
    {
      hide WalkedSoFar, OneWalked;
      var listed := Listed(bucket);
      ghost var first := Seen(report);
      var todo := listed.Keys;
      ghost var done: map<Key, nat> := map[];
      NothingWalked(apply, who, trouble, first);
      while todo != {}
        invariant todo <= listed.Keys && done == listed - todo
        invariant WalkedSoFar(apply, who, trouble, first, Seen(report), done)
        decreases |todo|
      {
        var key :| key in todo;
        ghost var before := Seen(report);
        WalkOne(key, listed[key], apply, report);
        WalkedFurther(apply, who, trouble, first, before, Seen(report), done, key, listed[key]);
        done := done[key := listed[key]];
        todo := todo - {key};
      }
      assert done == listed;
    }
  
    method DropOne(key: Key, row: Row, apply: bool, report: Report)
      modifies `rows, report
      ensures OneDropped(apply, old(Seen(report)), Seen(report), row, key, Missing(key, bucket, trouble))
    {
      if key in trouble.unreadable || (key in bucket && key !in trouble.vanished) {
        return;
      }
      if apply {
        rows := rows - {key};
      } else {
        report.Defer(row.user, 0 - row.bytes);
      }
    }

    /** `_drop_dangling_rows`. */
    method DropDanglingRows(apply: bool, report: Report)
      modifies `rows, report
      ensures DroppedSoFar(apply, trouble, old(Seen(report)), Seen(report), old(rows.Keys))
    {
      hide DroppedSoFar, OneDropped;
      var all := rows;
      ghost var first := Seen(report);
      var todo := all.Keys;
      NothingDropped(apply, trouble, first);
      assert all.Keys - todo == {};
      while todo != {}
        invariant todo <= all.Keys
        invariant DroppedSoFar(apply, trouble, first, Seen(report), all.Keys - todo) && bucket == first.bucket
        decreases |todo|
      {
        var key :| key in todo;
        ghost var before := Seen(report);
        DropOne(key, all[key], apply, report);
        DroppedFurther(apply, trouble, first, before, Seen(report), all.Keys - todo, key);
        assert all.Keys - todo + {key} == all.Keys - (todo - {key});
        todo := todo - {key};
      }
      assert all.Keys - todo == all.Keys;
    }

    /** SUM(bytes) GROUP BY user_id. */
    method SumByUser() returns (totals: map<User, nat>)
      ensures forall u :: TotalIn(totals, u) == Total(rows, u)
    {
      hide Summed;
      totals := map[];
      var todo := rows.Keys;
      NothingSummed(rows);
      assert rows.Keys - todo == {};
      while todo != {}
        invariant todo <= rows.Keys && Summed(totals, rows, rows.Keys - todo)
        decreases |todo|
      {
        var key :| key in todo;
        var row := rows[key];
        SummedFurther(totals, rows, rows.Keys - todo, key);
        totals := totals[row.user := (if row.user in totals then totals[row.user] else 0) + row.bytes];
        assert rows.Keys - todo + {key} == rows.Keys - (todo - {key});
        todo := todo - {key};
      }
      assert rows.Keys - todo == rows.Keys;
      AllSummed(totals, rows);
    }

    /** `_recompute_counters`: every counter that is off is reported, and set by an apply. */
    method RecomputeCounters(apply: bool, report: Report) returns (decisions: map<User, (int, int)>)
      requires apply ==> report.pendingDelta == map[]
      modifies `counters
      ensures AreDecisions(decisions, old(counters), rows, report.pendingDelta)
      ensures apply ==> Balanced(Books(rows, counters))
      ensures !apply || decisions == map[] ==> counters == old(counters)
    {
      hide DecidedSoFar, AreDecisions, Balanced, CounterIn, TotalIn, Total;
      var totals := SumByUser();
      ghost var was := counters;
      var pending := report.pendingDelta;
      decisions := DecideEach(counters.Keys + totals.Keys + pending.Keys, totals, pending, apply);
      AllDecided(apply, was, totals, pending, decisions, counters, rows);
      if apply {
        AllSet(was, totals, pending, decisions, counters, rows);
      }
    }

    method DecideEach(users: set<User>, totals: map<User, nat>, pending: map<User, int>, apply: bool)
      returns (decisions: map<User, (int, int)>)
      modifies `counters
      ensures DecidedSoFar(apply, old(counters), totals, pending, users, decisions, counters)
    {
      hide DecidedSoFar, CounterIn, TotalIn;
      ghost var was := counters;
      var todo := users;
      decisions := map[];
      NothingDecided(apply, was, totals, pending);
      assert users - todo == {};
      while todo != {}
        invariant todo <= users && DecidedSoFar(apply, was, totals, pending, users - todo, decisions, counters)
        decreases |todo|
      {
        var u :| u in todo;
        DecidedFurther(apply, was, totals, pending, users - todo, decisions, counters, u);
        var used, total := CounterIn(counters, u), TotalIn(totals, u) + CounterIn(pending, u);
        if used != total {
          decisions := decisions[u := (used, total)];
          if apply {
            counters := counters[u := total];
          }
        }
        assert users - todo + {u} == users - (todo - {u});
        todo := todo - {u};
      }
      assert users - todo == users;
    }

    /** `reconcile`. An apply leaves the target rows, the bucket without its deletable orphans and every
        counter the sum of its rows. A dry run changes nothing and foresees the walk's and the drop's moves.
        Both return the counters that are off. */
    method Reconcile(apply: bool) returns (report: Report, decisions: map<User, (int, int)>)
      modifies this
      ensures apply ==> rows == Target(old(rows), old(bucket), who, trouble)
      ensures apply ==> bucket == Left(old(rows), old(bucket), who, trouble)
      ensures apply ==> Balanced(Books(rows, counters)) && AreDecisions(decisions, old(counters), rows, map[])
      ensures !apply || decisions == map[] ==> counters == old(counters)
      ensures !apply ==> rows == old(rows) && bucket == old(bucket)
      ensures !apply ==> Foreseen(report.pendingDelta, rows, bucket, who, trouble)
      ensures !apply ==> AreDecisions(decisions, counters, rows, report.pendingDelta)
      ensures report.orphanKeys == Orphans(old(rows), Listed(old(bucket)), who)
      ensures forall k :: k in report.orphanKeys <==> k in old(bucket) && Scanned(k) && k !in old(rows) && k !in who
    {
      OrphansAre(rows, bucket, who);
      hide Total, AreDecisions, Balanced, Walked, Orphans;
      report := new Report();
      WalkBucket(apply, report);
      ghost var middle := bucket;
      DropDanglingRows(apply, report);
      WalkedRowsAreNoOrphans(old(rows), old(bucket), who, trouble);
      decisions := RecomputeCounters(apply, report);
    }
  }

  /** Two repairs in a row of a quiet bucket: the second changes nothing and reports nothing. */
  method RepairTwice(auditor: Auditor) returns (again: map<User, (int, int)>)
    requires auditor.trouble.vanished == {}
    modifies auditor
    ensures again == map[] && Balanced(Books(auditor.rows, auditor.counters))
    ensures auditor.rows == Target(old(auditor.rows), old(auditor.bucket), auditor.who, auditor.trouble)
    ensures auditor.bucket == Left(old(auditor.rows), old(auditor.bucket), auditor.who, auditor.trouble)
  {
    hide Target, Left, AreDecisions, Balanced;
    var report, decisions := auditor.Reconcile(true);
    ghost var counters := auditor.counters;
    report, again := auditor.Reconcile(true);
    SecondRepairIsIdle(old(auditor.rows), old(auditor.bucket), auditor.who, auditor.trouble, counters, again);
  }

  lemma OrphansAre(rows: map<Key, Row>, bucket: map<Key, nat>, who: Attributions)
    ensures forall k :: k in Orphans(rows, Listed(bucket), who) <==>
                          k in bucket && Scanned(k) && k !in rows && k !in who
  {
  }

  /** Deleting orphans makes no row dangle. */
  lemma WalkedRowsAreNoOrphans(rows: map<Key, Row>, bucket: map<Key, nat>, who: Attributions, t: Trouble)
    ensures var keys := Walked(rows, Listed(bucket), who).Keys;
            Dangling(keys, Left(rows, bucket, who, t), t) == Dangling(keys, bucket, t)
  {
  }

  /** The counters of `seen` have been compared, and set if need be. */
  ghost predicate DecidedSoFar(apply: bool, was: map<User, int>, totals: map<User, nat>, pending: map<User, int>,
                               seen: set<User>, d: map<User, (int, int)>, counters: map<User, int>) {
    && d.Keys <= seen
    && (forall u :: u in seen ==> IsDecision(d, u, CounterIn(was, u), TotalIn(totals, u) + CounterIn(pending, u)))
    && (forall u :: CounterIn(counters, u) == if apply && u in d then d[u].1 else CounterIn(was, u))
    && (!apply || d == map[] ==> counters == was)
  }

  lemma NothingDecided(apply: bool, was: map<User, int>, totals: map<User, nat>, pending: map<User, int>)
    ensures DecidedSoFar(apply, was, totals, pending, {}, map[], was)
  {
  }

  lemma DecidedFurther(apply: bool, was: map<User, int>, totals: map<User, nat>, pending: map<User, int>,
                       seen: set<User>, d: map<User, (int, int)>, counters: map<User, int>, u: User)
    requires DecidedSoFar(apply, was, totals, pending, seen, d, counters) && u !in seen
    ensures var used, total := CounterIn(counters, u), TotalIn(totals, u) + CounterIn(pending, u);
            DecidedSoFar(apply, was, totals, pending, seen + {u}, if used != total then d[u := (used, total)] else d,
                         if used != total && apply then counters[u := total] else counters)
  {
    hide TotalIn;
  }

  lemma AllDecided(apply: bool, was: map<User, int>, totals: map<User, nat>, pending: map<User, int>,
                   d: map<User, (int, int)>, counters: map<User, int>, rows: map<Key, Row>)
    requires DecidedSoFar(apply, was, totals, pending, was.Keys + totals.Keys + pending.Keys, d, counters)
    requires forall u :: TotalIn(totals, u) == Total(rows, u)
    ensures AreDecisions(d, was, rows, pending)
    ensures !apply || d == map[] ==> counters == was
  {
    hide Total;
    forall u ensures IsDecision(d, u, CounterIn(was, u), TotalIn(totals, u) + CounterIn(pending, u)) {
      if u !in was.Keys + totals.Keys + pending.Keys {
        assert CounterIn(was, u) == 0 && TotalIn(totals, u) == 0 && CounterIn(pending, u) == 0;
      }
    }
  }

  lemma AllSet(was: map<User, int>, totals: map<User, nat>, pending: map<User, int>, d: map<User, (int, int)>,
               counters: map<User, int>, rows: map<Key, Row>)
    requires pending == map[]
    requires DecidedSoFar(true, was, totals, pending, was.Keys + totals.Keys + pending.Keys, d, counters)
    requires forall u :: TotalIn(totals, u) == Total(rows, u)
    ensures Balanced(Books(rows, counters))
  {
    hide Bytes;
    AllDecided(true, was, totals, pending, d, counters, rows);
    forall u ensures Counter(Books(rows, counters), u) == Total(rows, u) {
      assert IsDecision(d, u, CounterIn(was, u), Total(rows, u) + CounterIn(pending, u));
      assert CounterIn(counters, u) == Total(rows, u);
    }
  }

  ghost predicate Summed(totals: map<User, nat>, rows: map<Key, Row>, seen: set<Key>) {
    forall u :: TotalIn(totals, u) == Total(Part(rows, seen), u)
  }

  lemma NothingSummed(rows: map<Key, Row>)
    ensures Summed(map[], rows, {})
  {
    assert forall u :: Owned(Part(rows, {}), u) == map[];
  }

  lemma AllSummed(totals: map<User, nat>, rows: map<Key, Row>)
    requires Summed(totals, rows, rows.Keys)
    ensures forall u :: TotalIn(totals, u) == Total(rows, u)
  {
    assert Part(rows, rows.Keys) == rows;
  }

  lemma SummedFurther(totals: map<User, nat>, rows: map<Key, Row>, seen: set<Key>, k: Key)
    requires k in rows && k !in seen && Summed(totals, rows, seen)
    ensures Summed(totals[rows[k].user := TotalIn(totals, rows[k].user) + rows[k].bytes], rows, seen + {k})
  {
    hide Total, Part;
    forall u
      ensures Total(Part(rows, seen + {k}), u) == Total(Part(rows, seen), u) + if rows[k].user == u then rows[k].bytes else 0
    {
      DropMovesTotal(rows, seen, k, u);
    }
  }

  function TotalIn(totals: map<User, nat>, u: User): nat {
    if u in totals then totals[u] else 0
  }
}
