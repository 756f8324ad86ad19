/** The Redis half of the per-host lease protocol (api/app/core/host_limiter.py).

    The reference is the plain history of calls: what has been granted, for how long, and what was
    given back. The class keeps what Redis keeps, a pruned sorted set and two key expiries, and every
    call is proved to answer as the history does. All times are milliseconds of Redis's clock. */
module HostLimiter {
  import opened Common

  type LeaseId = string

  datatype Event =
    | Asked(now: int, id: LeaseId, ttl: int, decision: Decision)
    | Freed(now: int, id: LeaseId)

  datatype Decision = AlreadyHeld | Full | TooSoon(wait: int) | Granted

  type History = seq<Event>

  function Front(h: History): History
    requires h != []
  {
    h[..|h| - 1]
  }

  function Last(h: History): Event
    requires h != []
  {
    h[|h| - 1]
  }

  predicate IsGrant(e: Event) {
    e.Asked? && e.decision == Granted
  }

  /** Every lease granted and not given back, with the instant it lapses, lapsed ones included. */
  function Expiries(h: History): map<LeaseId, int> {
    if h == [] then map[]
    else
      match Last(h)
      case Asked(now, id, ttl, decision) =>
        if decision == Granted then Expiries(Front(h))[id := now + ttl] else Expiries(Front(h))
      case Freed(_, id) => Expiries(Front(h)) - {id}
  }

  function Live(h: History, t: int): set<LeaseId> {
    set id | id in Expiries(h) && Expiries(h)[id] > t
  }

  function LastGrant(h: History): Option<int> {
    if h == [] then None
    else if IsGrant(Last(h)) then Some(Last(h).now)
    else LastGrant(Front(h))
  }

  /** What the history entitles a call to. */
  function Decide(h: History, now: int, id: LeaseId, limit: int, interval: int): Decision {
    if id in Live(h, now) then AlreadyHeld
    else if |Live(h, now)| >= limit then Full
    else if interval > 0 && LastGrant(h).Some? && LastGrant(h).value + interval > now then
      TooSoon(LastGrant(h).value + interval - now)
    else Granted
  }

  /** Histories the limiter can produce: a clock that does not run backwards and every decision the
      one the history before it entitles the caller to. */
  ghost predicate Legal(h: History, limit: int, interval: int) {
    && (forall i, j :: 0 <= i <= j < |h| ==> h[i].now <= h[j].now)
    && (forall i :: 0 <= i < |h| && h[i].Asked? ==>
          h[i].decision == Decide(h[..i], h[i].now, h[i].id, limit, interval))
  }

  ghost predicate NotAfter(h: History, t: int) {
    forall i :: 0 <= i < |h| ==> h[i].now <= t
  }

  lemma LegalPrefix(h: History, k: nat, limit: int, interval: int)
    requires Legal(h, limit, interval) && k <= |h|
    ensures Legal(h[..k], limit, interval)
    ensures k < |h| ==> NotAfter(h[..k], h[k].now)
  {
    forall i | 0 <= i < k && h[i].Asked?
      ensures h[..k][i].decision == Decide(h[..k][..i], h[i].now, h[i].id, limit, interval)
    {
      assert h[..k][..i] == h[..i];
    }
  }

  lemma LegalExtend(h: History, e: Event, limit: int, interval: int)
    requires Legal(h, limit, interval) && NotAfter(h, e.now)
    requires e.Asked? ==> e.decision == Decide(h, e.now, e.id, limit, interval)
    ensures Legal(h + [e], limit, interval) && NotAfter(h + [e], e.now)
  {
    var g := h + [e];
    forall i | 0 <= i < |g| && g[i].Asked?
      ensures g[i].decision == Decide(g[..i], g[i].now, g[i].id, limit, interval)
    {
      assert g[..i] == h[..i];
      assert h[..|h|] == h;
    }
  }

  /** At every instant from the last call on, live leases number at most the limit. */
  lemma {:induction false} LiveWithinLimit(h: History, t: int, limit: int, interval: int)
    requires Legal(h, limit, interval) && NotAfter(h, t)
    ensures |Live(h, t)| <= Max(limit, 0)
  {
    if h == [] {
      assert Live(h, t) == {};
    } else {
      var f, e := Front(h), Last(h);
      assert h[..|h| - 1] == f;
      LegalPrefix(h, |f|, limit, interval);
      LiveWithinLimit(f, t, limit, interval);
      if IsGrant(e) {
        SubsetSize(Live(f, t), Live(f, e.now));
        SubsetSize(Live(h, t), Live(f, t) + {e.id});
      } else {
        SubsetSize(Live(h, t), Live(f, t));
      }
    }
  }

  /** The bound at every instant of a run, not only after its last call: `k` calls have been made and
      the next has not come before `t`. */
  lemma LiveWithinLimitThroughout(h: History, k: nat, t: int, limit: int, interval: int)
    requires Legal(h, limit, interval) && k <= |h|
    requires NotAfter(h[..k], t)
    ensures |Live(h[..k], t)| <= Max(limit, 0)
  {
    LegalPrefix(h, k, limit, interval);
    LiveWithinLimit(h[..k], t, limit, interval);
  }

  lemma {:induction false} LastGrantIsLatest(h: History, i: nat)
    requires i < |h| && IsGrant(h[i])
    requires forall a, b :: 0 <= a <= b < |h| ==> h[a].now <= h[b].now
    ensures LastGrant(h).Some? && LastGrant(h).value >= h[i].now
  {
    if !IsGrant(Last(h)) {
      LastGrantIsLatest(Front(h), i);
    }
  }

  /** Two grants are at least `interval` apart, whatever was released in between. */
  lemma GrantsApart(h: History, i: nat, j: nat, limit: int, interval: int)
    requires Legal(h, limit, interval)
    requires i < j < |h| && IsGrant(h[i]) && IsGrant(h[j])
    ensures h[j].now - h[i].now >= interval
  {
    LegalPrefix(h, j, limit, interval);
    LastGrantIsLatest(h[..j], i);
  }

  /** A call that repeats a live lease (a retried acquire) leaves every lease and the rate window as
      they were, so retrying can neither extend a lease nor take a second slot. */
  lemma RepeatedAcquireChangesNothing(h: History, now: int, id: LeaseId, ttl: int, limit: int, interval: int)
    requires id in Live(h, now)
    ensures var e := Asked(now, id, ttl, Decide(h, now, id, limit, interval));
            Expiries(h + [e]) == Expiries(h) && LastGrant(h + [e]) == LastGrant(h) && ScriptAnswer(e.decision) == 0
  {
    assert Front(h + [Asked(now, id, ttl, AlreadyHeld)]) == h;
  }

  // ----- what the history says of itself, event by event ------------------------------------------

  /** Call number `i` granted `id` a lease that runs past `t`, and nothing has touched it since. */
  ghost predicate HeldSince(h: History, i: nat, id: LeaseId, t: int)
    requires i < |h|
  {
    && IsGrant(h[i]) && h[i].id == id && h[i].now + h[i].ttl > t
    && forall j :: i < j < |h| && h[j].id == id ==> h[j].Asked? && !IsGrant(h[j])
  }

  /** A lease is live exactly when one call granted it, for long enough, and no release came after. */
  lemma {:induction false} LiveExactly(h: History, id: LeaseId, t: int)
    ensures id in Live(h, t) <==> exists i :: 0 <= i < |h| && HeldSince(h, i, id, t)
  {
    if h != [] {
      var f, e := Front(h), Last(h);
      LiveExactly(f, id, t);
      if e.id == id && (e.Freed? || IsGrant(e)) {
        if IsGrant(e) && e.now + e.ttl > t {
          assert HeldSince(h, |f|, id, t);
        }
      } else {
        if i :| 0 <= i < |f| && HeldSince(f, i, id, t) {
          assert HeldSince(h, i, id, t);
        }
        if i :| 0 <= i < |h| && HeldSince(h, i, id, t) {
          assert i < |f| && f[i] == h[i] && forall j :: i < j < |f| ==> f[j] == h[j];
          assert HeldSince(f, i, id, t);
        }
      }
    }
  }

  /** Every grant is at least `interval` old. */
  ghost predicate GrantsAreOld(h: History, now: int, interval: int) {
    forall i :: 0 <= i < |h| && IsGrant(h[i]) ==> now - h[i].now >= interval
  }

  /** `t` is when the latest grant was. */
  ghost predicate IsLatestGrant(h: History, t: int) {
    && (exists i :: 0 <= i < |h| && IsGrant(h[i]) && h[i].now == t)
    && forall i :: 0 <= i < |h| && IsGrant(h[i]) ==> h[i].now <= t
  }

  lemma {:induction false} LastGrantIsIt(h: History, now: int)
    requires NotAfter(h, now)
    requires forall a, b :: 0 <= a <= b < |h| ==> h[a].now <= h[b].now
    ensures LastGrant(h) == None ==> forall i :: 0 <= i < |h| ==> !IsGrant(h[i])
    ensures LastGrant(h).Some? ==> IsLatestGrant(h, LastGrant(h).value)
  {
    if h != [] && !IsGrant(Last(h)) {
      LastGrantIsIt(Front(h), now);
      if LastGrant(h).Some? {
        var i :| 0 <= i < |Front(h)| && IsGrant(Front(h)[i]) && Front(h)[i].now == LastGrant(h).value;
        assert h[i] == Front(h)[i];
      }
      assert forall i :: 0 <= i < |h| - 1 ==> h[i] == Front(h)[i];
    }
  }

  /** What a caller is owed. It gets a slot if and only if it holds one, or fewer than `limit` are held and
      no grant is younger than `interval`; -1 means that `limit` others are held, and n > 0 that the latest
      grant will be `interval` old in n milliseconds. */
  ghost predicate AnswersRightly(h: History, now: int, id: LeaseId, answer: int, limit: int, interval: int) {
    && (answer == 0 <==> id in Live(h, now) || (|Live(h, now)| < limit && GrantsAreOld(h, now, interval)))
    && (answer < 0 <==> id !in Live(h, now) && |Live(h, now)| >= limit)
    && (answer < 0 ==> answer == -1)
    && (answer > 0 ==> IsLatestGrant(h, now + answer - interval))
  }

  /** What the call leaves: a slot newly got is held until `ttl` has passed, everything else is as it was. */
  ghost predicate LeasesFollow(h: History, h': History, now: int, id: LeaseId, ttl: int, answer: int) {
    && (answer == 0 && id !in Live(h, now) ==> forall t :: id in Live(h', t) <==> t < now + ttl)
    && (!(answer == 0 && id !in Live(h, now)) ==> forall t :: id in Live(h', t) <==> id in Live(h, t))
    && forall t, other :: other != id ==> (other in Live(h', t) <==> other in Live(h, t))
  }

  lemma DecisionIsOwed(h: History, now: int, id: LeaseId, ttl: int, limit: int, interval: int)
    requires Legal(h, limit, interval) && NotAfter(h, now)
    ensures var d := Decide(h, now, id, limit, interval);
            && AnswersRightly(h, now, id, ScriptAnswer(d), limit, interval)
            && LeasesFollow(h, h + [Asked(now, id, ttl, d)], now, id, ttl, ScriptAnswer(d))
  {
    LastGrantIsIt(h, now);
    var d := Decide(h, now, id, limit, interval);
    assert Front(h + [Asked(now, id, ttl, d)]) == h;
    if LastGrant(h).Some? && LastGrant(h).value + interval > now {
      var i :| 0 <= i < |h| && IsGrant(h[i]) && h[i].now == LastGrant(h).value;
      assert !GrantsAreOld(h, now, interval);
    }
  }

  /** A release ends that lease at every instant, and no other. */
  lemma ReleaseEnds(h: History, now: int, id: LeaseId)
    ensures forall t :: id !in Live(h + [Freed(now, id)], t)
    ensures forall t, other :: other != id ==> (other in Live(h + [Freed(now, id)], t) <==> other in Live(h, t))
  {
    assert Front(h + [Freed(now, id)]) == h;
  }

  /** The number the script returns for a decision, and `acquire`'s reading of it: 0 = go, else the
      milliseconds to wait, jitter added. */
  function ScriptAnswer(d: Decision): int {
    match d
    case AlreadyHeld | Granted => 0
    case Full => -1
    case TooSoon(wait) => wait
  }

  const BUSY_POLL_MS := 1000

  function AcquireAnswer(answer: int, jitter: nat): (wait: int)
    ensures wait >= 0
    ensures wait == 0 <==> answer == 0
    ensures answer > 0 ==> answer <= wait <= answer + jitter
    ensures answer < 0 ==> BUSY_POLL_MS <= wait <= BUSY_POLL_MS + jitter
  {
    if answer == 0 then 0 else (if answer < 0 then BUSY_POLL_MS else answer) + jitter
  }

  /** What the two keys hold. A key with an expiry is gone from that instant on. */
  datatype Keys = Keys(leases: map<LeaseId, int>, leasesUntil: Option<int>, lastUntil: Option<int>)

  /** The sorted set as a command at `t` finds it. */
  function Visible(k: Keys, t: int): map<LeaseId, int> {
    if k.leasesUntil.Some? && k.leasesUntil.value <= t then map[] else k.leases
  }

  /** The keys tell the history: scores are real expiries, no live lease is missing, the sorted set
      outlives its members, and the marker lasts `interval` past the latest grant. */
  ghost predicate Mirrors(k: Keys, h: History, clock: int, interval: int) {
    && (forall id :: id in k.leases ==> id in Expiries(h) && k.leases[id] == Expiries(h)[id])
    && (forall id :: id in Expiries(h) && Expiries(h)[id] > clock ==> id in k.leases)
    && (k.leases != map[] ==> k.leasesUntil.Some?)
    && (k.leasesUntil.Some? ==> forall id :: id in k.leases ==> k.leases[id] <= k.leasesUntil.value)
    && k.lastUntil == (match LastGrant(h)
                       case None => None
                       case Some(g) => if interval > 0 then Some(g + interval) else None)
  }

  /** The key-level PEXPIRE never takes a live lease with it: at any later instant, what is left of
      the sorted set above `t` is exactly the live leases. */
  lemma ExpiryKeepsLiveLeases(k: Keys, h: History, clock: int, interval: int, t: int)
    requires Mirrors(k, h, clock, interval) && clock <= t
    ensures (set id | id in Visible(k, t) && Visible(k, t)[id] > t) == Live(h, t)
  {
  }

  lemma Pruned(k: Keys, h: History, clock: int, interval: int, now: int, leases: map<LeaseId, int>)
    requires Mirrors(k, h, clock, interval) && clock <= now
    requires leases == map m | m in Visible(k, now) && Visible(k, now)[m] > now :: Visible(k, now)[m]
    ensures Mirrors(k.(leases := leases), h, now, interval)
    ensures leases.Keys == Live(h, now)
  {
    ExpiryKeepsLiveLeases(k, h, clock, interval, now);
  }

  lemma MarkerTells(k: Keys, h: History, clock: int, interval: int)
    requires Mirrors(k, h, clock, interval)
    ensures k.lastUntil == match LastGrant(h)
                           case None => None
                           case Some(g) => if interval > 0 then Some(g + interval) else None
  {
  }

  lemma Added(k: Keys, h: History, interval: int, e: Event, after: map<LeaseId, int>, last: LeaseId, k': Keys)
    requires IsGrant(e) && Mirrors(k, h, e.now, interval)
    requires after == k.leases[e.id := e.now + e.ttl]
    requires last in after && forall m :: m in after ==> after[m] <= after[last]
    requires if after[last] - e.now <= 0 then k'.leases == map[] && k'.leasesUntil == None
             else k'.leases == after && k'.leasesUntil == Some(after[last])
    requires k'.lastUntil == if interval > 0 then Some(e.now + interval) else k.lastUntil
    ensures Mirrors(k', h + [e], e.now, interval)
  {
    assert Front(h + [e]) == h;
    assert Last(h + [e]) == e;
    assert Expiries(h + [e]) == Expiries(h)[e.id := e.now + e.ttl];
    assert LastGrant(h + [e]) == Some(e.now);
    forall id | id in Expiries(h + [e]) && Expiries(h + [e])[id] > e.now
      ensures id in k'.leases
    {
      assert id in after && after[id] == Expiries(h + [e])[id];
    }
  }

  lemma Refused(k: Keys, h: History, interval: int, e: Event)
    requires e.Asked? && e.decision != Granted && Mirrors(k, h, e.now, interval)
    ensures Mirrors(k, h + [e], e.now, interval)
  {
    assert Front(h + [e]) == h;
  }

  /** `host:<domain>:leases` and `host:<domain>:last`, for one domain under fixed settings. */
  class HostKeys {
    const limit: int
    const interval: int
    var leases: map<LeaseId, int>
    var leasesUntil: Option<int>
    var lastUntil: Option<int>
    ghost var history: History
    ghost var clock: int

    ghost function Now(): Keys
      reads this
    {
      Keys(leases, leasesUntil, lastUntil)
    }

    ghost predicate Valid()
      reads this
    {
      Legal(history, limit, interval) && NotAfter(history, clock) && Mirrors(Now(), history, clock, interval)
    }

    constructor (limit: int, interval: int)
      ensures Valid() && history == [] && this.limit == limit && this.interval == interval
    {
      this.limit, this.interval := limit, interval;
      leases, leasesUntil, lastUntil := map[], None, None;
      history, clock := [], 0;
    }

    /** ZREMRANGEBYSCORE up to `now`. */
    method Prune(now: int)
      requires Mirrors(Now(), history, clock, interval) && clock <= now
      modifies `leases
      ensures Mirrors(Now(), history, now, interval)
      ensures leases.Keys == Live(history, now)
    {
      ghost var k := Now();
      var found := Visible(Keys(leases, leasesUntil, lastUntil), now);
      leases := map m | m in found && found[m] > now :: found[m];
      Pruned(k, history, clock, interval, now, leases);
    }

    /** ZADD, then PEXPIRE to the last score, then the rate marker. */
    method Add(ghost h: History, now: int, id: LeaseId, ttl: int)
      requires Mirrors(Now(), h, now, interval)
      modifies `leases, `leasesUntil, `lastUntil
      ensures Mirrors(Now(), h + [Asked(now, id, ttl, Granted)], now, interval)
    {
      ghost var k := Now();
      leases := leases[id := now + ttl];
      assert id in leases;
      LargestScore(leases);
      var last :| last in leases && forall m :: m in leases ==> leases[m] <= leases[last];
      ghost var after := leases;
      if leases[last] - now <= 0 {
        leases, leasesUntil := map[], None;
      } else {
        leasesUntil := Some(leases[last]);
      }
      if interval > 0 {
        lastUntil := Some(now + interval);
      }
      Added(k, h, interval, Asked(now, id, ttl, Granted), after, last, Now());
    }

    lemma Later(h: History, t: int, now: int)
      requires NotAfter(h, t) && t <= now
      ensures NotAfter(h, now)
    {
    }

    /** `_ACQUIRE_SCRIPT`: the keys alone lead to the answer the history entitles the caller to. */
    method AcquireScript(now: int, id: LeaseId, ttl: int) returns (answer: int)
      requires Valid() && clock <= now
      modifies this
      ensures AnswersRightly(old(history), now, id, answer, limit, interval)
      ensures LeasesFollow(old(history), history, now, id, ttl, answer)
      ensures var d := Decide(old(history), now, id, limit, interval);
              history == old(history) + [Asked(now, id, ttl, d)] && answer == ScriptAnswer(d)
      ensures Mirrors(Now(), history, now, interval) && clock == now
    {
      hide Legal, NotAfter, AnswersRightly, LeasesFollow, Mirrors, Expiries, Live, LastGrant;
      ghost var h := history;
      Later(h, clock, now);
      MarkerTells(Now(), h, clock, interval);
      Prune(now);
      clock := now;
      var wait := if lastUntil.Some? then lastUntil.value - now else -2;
      ghost var d := Decide(h, now, id, limit, interval);
      DecisionIsOwed(h, now, id, ttl, limit, interval);
      ghost var e := Asked(now, id, ttl, d);
      history := h + [e];
      if d != Granted {
        Refused(Now(), h, interval, e);
      }
      if id in leases {
        answer := 0;
      } else if |leases.Keys| >= limit {
        answer := -1;
      } else if wait > 0 {
        answer := wait;
      } else {
        Add(h, now, id, ttl);
        answer := 0;
      }
    }

    /** The same call, on a whole run: histories stay legal. */
    method Acquire(now: int, id: LeaseId, ttl: int) returns (answer: int)
      requires Valid() && clock <= now
      modifies this
      ensures Valid() && clock == now
      ensures AnswersRightly(old(history), now, id, answer, limit, interval)
      ensures LeasesFollow(old(history), history, now, id, ttl, answer)
      ensures var d := Decide(old(history), now, id, limit, interval);
              history == old(history) + [Asked(now, id, ttl, d)] && answer == ScriptAnswer(d)
    {
      LegalExtend(history, Asked(now, id, ttl, Decide(history, now, id, limit, interval)), limit, interval);
      answer := AcquireScript(now, id, ttl);
    }

    /** `release`: ZREM. Removing the last member removes the key. */
    method Release(now: int, id: LeaseId)
      requires Valid() && clock <= now
      modifies this
      ensures Valid() && clock == now
      ensures history == old(history) + [Freed(now, id)]
      ensures forall t :: id !in Live(history, t)
      ensures forall t, other :: other != id ==> (other in Live(history, t) <==> other in Live(old(history), t))
    {
      ghost var h := history;
      LegalExtend(h, Freed(now, id), limit, interval);
      ReleaseEnds(h, now, id);
      assert Front(h + [Freed(now, id)]) == h;
      history, clock := h + [Freed(now, id)], now;
      leases := Visible(Keys(leases, leasesUntil, lastUntil), now) - {id};
      if leases == map[] {
        leasesUntil := None;
      }
    }
  }

  lemma {:induction false} LargestScore(m: map<LeaseId, int>)
    requires m != map[]
    ensures exists last :: last in m && forall id :: id in m ==> m[id] <= m[last]
    decreases |m|
  {
    var x :| x in m;
    var rest := m - {x};
    if rest == map[] {
      assert m.Keys == rest.Keys + {x};
    } else {
      LargestScore(rest);
      var y :| y in rest && forall id :: id in rest ==> rest[id] <= rest[y];
      var best := if m[x] <= m[y] then y else x;
      assert forall id :: id in m ==> id == x || id in rest;
      assert best in m && forall id :: id in m ==> m[id] <= m[best];
    }
  }
}
