/** The sliding-window rate limiter (api/app/core/rate_limit.py): two scripts over one sorted set per user.
    The reference is the history of calls; the class keeps what Redis keeps. Milliseconds. */
module RateLimit {
  import opened Common

  type Member = string

  /** One call: the units it added, all stamped `now`, or a refusal of `count` units. */
  datatype Event = Admit(now: int, members: set<Member>) | Refuse(now: int, count: nat)

  type History = seq<Event>

  /** Every unit ever admitted, with its time. */
  function All(h: History): map<Member, int> {
    if h == [] then map[]
    else
      match h[|h| - 1]
      case Admit(now, members) => All(h[..|h| - 1]) + map m | m in members :: now
      case Refuse(_, _) => All(h[..|h| - 1])
  }

  /** The units of the window (t - window, t]. */
  function Window(h: History, t: int, window: int): set<Member> {
    set m | m in All(h) && t - window < All(h)[m] <= t
  }

  /** All the units asked for or none. */
  predicate Fits(h: History, now: int, count: nat, limit: int, window: int) {
    |Window(h, now, window)| + count <= limit
  }

  predicate Entitled(h: History, e: Event, limit: int, window: int) {
    match e
    case Admit(now, members) => Fits(h, now, |members|, limit, window) && members !! All(h).Keys
    case Refuse(now, count) => !Fits(h, now, count, limit, window)
  }

  /** Histories the limiter can produce, given a clock that does not run backwards and members that do not
      repeat. */
  ghost predicate Legal(h: History, limit: int, window: int) {
    && (forall i, j :: 0 <= i <= j < |h| ==> h[i].now <= h[j].now)
    && (forall i :: 0 <= i < |h| ==> Entitled(h[..i], h[i], limit, window))
  }

  ghost predicate NotAfter(h: History, t: int) {
    forall i :: 0 <= i < |h| ==> h[i].now <= t
  }

  lemma LegalFront(h: History, limit: int, window: int)
    requires h != [] && Legal(h, limit, window)
    ensures Legal(h[..|h| - 1], limit, window) && NotAfter(h[..|h| - 1], h[|h| - 1].now)
    ensures Entitled(h[..|h| - 1], h[|h| - 1], limit, window)
  {
    hide Entitled;
    var f := h[..|h| - 1];
    forall i | 0 <= i < |f| ensures Entitled(f[..i], f[i], limit, window) {
      assert f[..i] == h[..i];
      assert Entitled(h[..i], h[i], limit, window);
    }
  }

  lemma LegalExtend(h: History, e: Event, limit: int, window: int)
    requires Legal(h, limit, window) && NotAfter(h, e.now) && Entitled(h, e, limit, window)
    ensures Legal(h + [e], limit, window) && NotAfter(h + [e], e.now)
  {
    hide Entitled;
    var g := h + [e];
    forall i | 0 <= i < |g| ensures Entitled(g[..i], g[i], limit, window) {
      if i < |h| {
        assert g[..i] == h[..i];
        assert Entitled(h[..i], h[i], limit, window);
      } else {
        assert g[..i] == h;
      }
    }
  }

  lemma {:induction false} UnitsNotAfter(h: History, t: int, m: Member)
    requires NotAfter(h, t) && m in All(h)
    ensures All(h)[m] <= t
  {
    var f := h[..|h| - 1];
    if m in All(f) && !(h[|h| - 1].Admit? && m in h[|h| - 1].members) {
      UnitsNotAfter(f, t, m);
    }
  }

  /** A unit counts at `t` exactly when the one call that admitted it came in (t - window, t]. */
  lemma {:induction false} CountsWhileYoung(h: History, m: Member, t: int, limit: int, window: int)
    requires Legal(h, limit, window)
    ensures m in Window(h, t, window) <==>
            exists i :: 0 <= i < |h| && h[i].Admit? && m in h[i].members && t - window < h[i].now <= t
    ensures m in All(h) <==> exists i :: 0 <= i < |h| && h[i].Admit? && m in h[i].members
  {
    hide Legal;
    if h != [] {
      var f, e := h[..|h| - 1], h[|h| - 1];
      LegalFront(h, limit, window);
      CountsWhileYoung(f, m, t, limit, window);
      assert forall i :: 0 <= i < |f| ==> f[i] == h[i];
      if i :| 0 <= i < |f| && f[i].Admit? && m in f[i].members {
        assert m in All(f) && h[i] == f[i];
      }
    }
  }

  /** Every window of the given length, wherever it ends, over the whole history: at most `limit` units. */
  lemma {:induction false} EveryWindowWithinLimit(h: History, t: int, limit: int, window: int)
    requires Legal(h, limit, window) && window > 0
    ensures |Window(h, t, window)| <= Max(limit, 0)
  {
    hide Legal;
    if h == [] {
      assert Window(h, t, window) == {};
    } else {
      var f, e := h[..|h| - 1], h[|h| - 1];
      LegalFront(h, limit, window);
      EveryWindowWithinLimit(f, t, limit, window);
      if e.Admit? && t - window < e.now <= t {
        forall m | m in Window(f, t, window) ensures m in Window(f, e.now, window) {
          UnitsNotAfter(f, e.now, m);
        }
        SubsetSize(Window(f, t, window), Window(f, e.now, window));
        assert Window(h, t, window) == Window(f, t, window) + e.members;
      } else {
        assert Window(h, t, window) == Window(f, t, window);
      }
    }
  }

  // ----- Retry-After ------------------------------------------------------------------------------------------

  function RetryAfter(oldest: int, now: int, window: int): int {
    Max(1, (oldest + window - now) / 1000)
  }

  /** The remaining milliseconds in whole seconds, a second at least. */
  predicate RoundsDown(seconds: int, remaining: int) {
    && seconds >= 1 && (remaining < 1000 ==> seconds == 1)
    && (remaining >= 1000 ==> 1000 * seconds <= remaining < 1000 * seconds + 1000)
  }

  ghost predicate IsOldest(h: History, now: int, window: int, oldest: int) {
    if Window(h, now, window) == {} then oldest == now
    else (exists m :: m in Window(h, now, window) && All(h)[m] == oldest)
         && forall m :: m in Window(h, now, window) ==> oldest <= All(h)[m]
  }

  /** A client that is refused one unit, waits as long as it is told, and is alone meanwhile, is admitted
      exactly when the remaining time was a whole number of seconds or less than one: the division rounds
      down. */
  lemma RetryAfterSufficesExactly(h: History, now: int, oldest: int, limit: int, window: int)
    requires Legal(h, limit, window) && NotAfter(h, now) && window > 0 && limit >= 1
    requires !Fits(h, now, 1, limit, window) && IsOldest(h, now, window, oldest)
    ensures Fits(h + [Refuse(now, 1)], now + 1000 * RetryAfter(oldest, now, window), 1, limit, window)
       <==> (oldest + window - now < 1000 || (oldest + window - now) % 1000 == 0)
  {
    var g, again := h + [Refuse(now, 1)], now + 1000 * RetryAfter(oldest, now, window);
    assert g[..|g| - 1] == h;
    EveryWindowWithinLimit(h, now, limit, window);
    var full, later := Window(h, now, window), Window(g, again, window);
    assert |full| == limit;
    assert full != {};
    var first :| first in full && All(h)[first] == oldest;
    forall m | m in later ensures m in full {
      UnitsNotAfter(h, now, m);
    }
    if oldest <= again - window {
      assert later <= full - {first};
      SubsetSize(later, full - {first});
    } else {
      assert full <= later;
      SubsetSize(full, later);
    }
    Rounding(oldest + window - now);
  }

  lemma Rounding(d: int)
    requires d > 0
    ensures 1000 * Max(1, d / 1000) >= d <==> (d < 1000 || d % 1000 == 0)
  {
  }

  lemma OneUnit(h: History, t: int)
    requires h == [Admit(0, {"0-1"})] && 0 <= t < 60_000
    ensures All(h) == map["0-1" := 0] && Window(h, t, 60_000) == {"0-1"}
    ensures Legal(h, 1, 60_000)
  {
    assert h[..0] == [];
    assert All([]) == map[];
    assert All(h) == map["0-1" := 0];
    assert Window([], 0, 60_000) == {};
  }

  /** One request a minute; the second asks half a second late and is told a second too few. */
  lemma RetryAfterTooShort() returns (h: History)
    ensures Legal(h, 1, 60_000) && NotAfter(h, 500) && IsOldest(h, 500, 60_000, 0) && !Fits(h, 500, 1, 1, 60_000)
    ensures !Fits(h + [Refuse(500, 1)], 500 + 1000 * RetryAfter(0, 500, 60_000), 1, 1, 60_000)
  {
    hide Legal, All, Window;
    h := [Admit(0, {"0-1"})];
    OneUnit(h, 500);
    assert "0-1" in Window(h, 500, 60_000) && All(h)["0-1"] == 0;
    RetryAfterSufficesExactly(h, 500, 0, 1, 60_000);
  }

  // ----- what Redis keeps ------------------------------------------------------------------------------------

  /** The sorted set, and when its key expires. */
  datatype Key = Key(entries: map<Member, int>, until: Option<int>)

  function Visible(k: Key, t: int): map<Member, int> {
    if k.until.Some? && k.until.value <= t then map[] else k.entries
  }

  /** Every unit of the last window is an entry, every entry a unit; the key outlasts its entries' window. */
  ghost predicate Mirrors(k: Key, h: History, clock: int, window: int) {
    && (forall m :: m in k.entries ==> m in All(h) && k.entries[m] == All(h)[m])
    && (forall m :: m in All(h) && All(h)[m] > clock - window ==> m in k.entries)
    && (k.entries != map[] ==> k.until.Some?)
    && (k.until.Some? ==> forall m :: m in k.entries ==> k.entries[m] + window <= k.until.value)
  }

  /** The key's expiry drops no unit that still counts: at any later instant the entries above the cutoff
      are the window. */
  lemma ExpiryDropsNothing(k: Key, h: History, clock: int, window: int, t: int)
    requires Mirrors(k, h, clock, window) && NotAfter(h, clock) && clock <= t && window > 0
    ensures (set m | m in Visible(k, t) && Visible(k, t)[m] > t - window) == Window(h, t, window)
  {
    forall m | m in All(h) ensures All(h)[m] <= t {
      UnitsNotAfter(h, clock, m);
    }
  }

  lemma Evicted(k: Key, h: History, clock: int, window: int, t: int, left: map<Member, int>)
    requires Mirrors(k, h, clock, window) && NotAfter(h, clock) && clock <= t && window > 0
    requires left == map m | m in Visible(k, t) && Visible(k, t)[m] > t - window :: Visible(k, t)[m]
    ensures left.Keys == Window(h, t, window) && Mirrors(k.(entries := left), h, t, window)
    ensures forall m :: m in left ==> left[m] == All(h)[m]
  {
    ExpiryDropsNothing(k, h, clock, window, t);
  }

  /** The entries with new ones, all of one time. */
  function Stamped(entries: map<Member, int>, members: set<Member>, now: int): map<Member, int> {
    entries + map m | m in members :: now
  }

  lemma StampedOne(entries: map<Member, int>, members: set<Member>, m: Member, now: int)
    ensures Stamped(entries, {}, now) == entries
    ensures Stamped(entries, members + {m}, now) == Stamped(entries, members, now)[m := now]
  {
  }

  lemma Added(k: Key, h: History, now: int, window: int, members: set<Member>, after: map<Member, int>)
    requires Mirrors(k, h, now, window) && NotAfter(h, now) && members !! All(h).Keys && window > 0
    requires after == Stamped(k.entries, members, now)
    ensures Mirrors(Key(after, Some(now + 2 * window)), h + [Admit(now, members)], now, window)
  {
    var g := h + [Admit(now, members)];
    assert g[..|g| - 1] == h;
    forall m | m in k.entries ensures k.entries[m] <= now {
      UnitsNotAfter(h, now, m);
    }
  }

  lemma Refused(k: Key, h: History, now: int, window: int, count: nat)
    requires Mirrors(k, h, now, window)
    ensures Mirrors(k, h + [Refuse(now, count)], now, window)
  {
    var g := h + [Refuse(now, count)];
    assert g[..|g| - 1] == h;
  }

  function Units(members: seq<Member>): set<Member> {
    set m | m in members
  }

  lemma UnitsSnoc(members: seq<Member>, i: nat)
    ensures Units(members[..0]) == {}
    ensures i < |members| ==> Units(members[..i + 1]) == Units(members[..i]) + {members[i]}
  {
  }

  predicate Distinct(members: seq<Member>) {
    forall i, j :: 0 <= i < j < |members| ==> members[i] != members[j]
  }

  lemma DistinctUnits(members: seq<Member>)
    requires Distinct(members)
    ensures |Units(members)| == |members|
  {
    if members != [] {
      var rest := members[..|members| - 1];
      DistinctUnits(rest);
      assert Units(members) == Units(rest) + {members[|members| - 1]};
    }
  }

  /** `rate:user:<id>` under fixed settings. */
  class UserWindow {
    const limit: int
    const window: int
    var entries: map<Member, int>
    var until: Option<int>
    ghost var history: History
    ghost var clock: int

    ghost function Now(): Key
      reads this
    {
      Key(entries, until)
    }

    ghost predicate Valid()
      reads this
    {
      && window > 0 && Legal(history, limit, window) && NotAfter(history, clock)
      && Mirrors(Now(), history, clock, window)
    }

    constructor (limit: int, windowSeconds: int)
      requires windowSeconds > 0
      ensures Valid() && history == [] && this.limit == limit && this.window == 1000 * windowSeconds
    {
      this.limit, this.window := limit, 1000 * windowSeconds;
      entries, until := map[], None;
      history, clock := [], 0;
    }

    /** ZREMRANGEBYSCORE up to the cutoff. */
    method Evict(now: int)
      requires Valid() && clock <= now
      modifies `entries, `clock
      ensures Valid() && clock == now
      ensures entries.Keys == Window(history, now, window) && forall m :: m in entries ==> entries[m] == All(history)[m]
    {
      ghost var k := Now();
      var found := Visible(Key(entries, until), now);
      entries := map m | m in found && found[m] > now - window :: found[m];
      Evicted(k, history, clock, window, now, entries);
      clock := now;
    }

    /** ZRANGE 0 0 WITHSCORES, or the present when the set is empty. */
    method Oldest(now: int) returns (oldest: int)
      requires entries.Keys == Window(history, now, window) && forall m :: m in entries ==> entries[m] == All(history)[m]
      ensures IsOldest(history, now, window, oldest)
    {
      if entries == map[] {
        return now;
      }
      SmallestScore(entries);
      var m :| m in entries && forall n :: n in entries ==> entries[m] <= entries[n];
      oldest := entries[m];
    }

    ghost method LogRefusal(now: int, count: nat)
      requires Valid() && clock == now && !Fits(history, now, count, limit, window)
      modifies `history
      ensures Valid() && history == old(history) + [Refuse(now, count)]
    {
      LegalExtend(history, Refuse(now, count), limit, window);
      Refused(Now(), history, now, window, count);
      history := history + [Refuse(now, count)];
    }

    ghost method LogAdmission(now: int, members: set<Member>, before: Key)
      requires window > 0 && Legal(history, limit, window) && NotAfter(history, now) && clock == now
      requires Mirrors(before, history, now, window) && members !! All(history).Keys
      requires Fits(history, now, |members|, limit, window)
      requires entries == Stamped(before.entries, members, now) && until == Some(now + 2 * window)
      modifies `history
      ensures Valid() && history == old(history) + [Admit(now, members)]
    {
      LegalExtend(history, Admit(now, members), limit, window);
      Added(before, history, now, window, members, entries);
      history := history + [Admit(now, members)];
    }

    /** `_SLIDING_WINDOW_SCRIPT`; `member` is the one it would add. */
    method SingleScript(now: int, member: Member) returns (allowed: bool, oldest: int)
      requires Valid() && clock <= now && member !in All(history)
      modifies this
      ensures Valid() && clock == now
      ensures allowed <==> Fits(old(history), now, 1, limit, window)
      ensures allowed <==> |Window(old(history), now, window)| < limit
      ensures if allowed then until == Some(now + 2 * window) else until == old(until)
      ensures history == old(history) + [if allowed then Admit(now, {member}) else Refuse(now, 1)]
      ensures !allowed ==> IsOldest(old(history), now, window, oldest)
    {
      hide Legal, Mirrors, Stamped, All, Window, Entitled;
      Evict(now);
      if |entries.Keys| >= limit {
        allowed := false;
        oldest := Oldest(now);
        LogRefusal(now, 1);
        return;
      }
      ghost var before := Now();
      entries := entries[member := now];
      until := Some(now + 2 * window);
      StampedOne(before.entries, {}, member, now);
      assert {} + {member} == {member};
      LogAdmission(now, {member}, before);
      allowed, oldest := true, 0;
    }

    method AddEach(now: int, members: seq<Member>)
      modifies `entries
      ensures entries == Stamped(old(entries), Units(members), now)
    {
      hide Stamped, Units;
      UnitsSnoc(members, 0);
      StampedOne(entries, {}, "", now);
      for i := 0 to |members|
        invariant entries == Stamped(old(entries), Units(members[..i]), now)
      {
        UnitsSnoc(members, i);
        StampedOne(old(entries), Units(members[..i]), members[i], now);
        entries := entries[members[i] := now];
      }
      assert members[..|members|] == members;
    }

    /** `_SLIDING_WINDOW_BATCH_SCRIPT`: all of the members are added or none is. */
    method BatchScript(now: int, members: seq<Member>) returns (allowed: bool, oldest: int)
      requires Valid() && clock <= now && Distinct(members) && Units(members) !! All(history).Keys
      modifies this
      ensures Valid() && clock == now
      ensures allowed <==> Fits(old(history), now, |members|, limit, window)
      ensures allowed <==> |Window(old(history), now, window)| + |members| <= limit
      ensures if allowed then until == Some(now + 2 * window) else until == old(until)
      ensures history == old(history) + [if allowed then Admit(now, Units(members)) else Refuse(now, |members|)]
      ensures !allowed ==> IsOldest(old(history), now, window, oldest)
    {
      hide Legal, Mirrors, Stamped;
      Evict(now);
      if |entries.Keys| + |members| > limit {
        allowed := false;
        oldest := Oldest(now);
        LogRefusal(now, |members|);
        return;
      }
      ghost var before := Now();
      AddEach(now, members);
      until := Some(now + 2 * window);
      DistinctUnits(members);
      LogAdmission(now, Units(members), before);
      allowed, oldest := true, 0;
    }

    /** `_increment_and_check`: None, or the refusal's Retry-After in seconds. */
    method IncrementAndCheck(now: int, member: Member) returns (retryAfter: Option<int>)
      requires Valid() && clock <= now && member !in All(history)
      modifies this
      ensures Valid() && clock == now
      ensures retryAfter.None? <==> Fits(old(history), now, 1, limit, window)
      ensures retryAfter.None? <==> |Window(old(history), now, window)| < limit
      ensures retryAfter.Some? ==>
                exists o :: IsOldest(old(history), now, window, o) && retryAfter.value == RetryAfter(o, now, window)
                            && RoundsDown(retryAfter.value, o + window - now)
      ensures history == old(history) + [if retryAfter.None? then Admit(now, {member}) else Refuse(now, 1)]
    {
      var allowed, oldest := SingleScript(now, member);
      retryAfter := if allowed then None else Some(Max(1, (oldest + window - now) / 1000));
    }

    /** `check_rate_limit_n`, for a batch of as many units. */
    method CheckRateLimitN(now: int, members: seq<Member>) returns (retryAfter: Option<int>)
      requires Valid() && clock <= now && Distinct(members) && Units(members) !! All(history).Keys
      modifies this
      ensures Valid() && clock == now
      ensures retryAfter.None? <==> Fits(old(history), now, |members|, limit, window)
      ensures retryAfter.None? <==> |Window(old(history), now, window)| + |members| <= limit
      ensures retryAfter.Some? ==>
                exists o :: IsOldest(old(history), now, window, o) && retryAfter.value == RetryAfter(o, now, window)
                            && RoundsDown(retryAfter.value, o + window - now)
      ensures history == old(history) + [if retryAfter.None? then Admit(now, Units(members)) else Refuse(now, |members|)]
    {
      var allowed, oldest := BatchScript(now, members);
      retryAfter := if allowed then None else Some(Max(1, (oldest + window - now) / 1000));
    }
  }

  /** A batch of one is decided, and recorded, as a single call is, and refused with the same unit's time. */
  method BatchOfOne(single: UserWindow, batch: UserWindow, now: int, member: Member)
    returns (allowed: bool, allowed': bool, oldest: int, oldest': int)
    requires single != batch && single.Valid() && batch.Valid() && single.clock <= now && batch.clock <= now
    requires single.limit == batch.limit && single.window == batch.window && single.history == batch.history
    requires member !in All(single.history)
    modifies single, batch
    ensures allowed == allowed' && (!allowed ==> oldest == oldest')
    ensures single.history == batch.history && |single.history| == |old(single.history)| + 1
  {
    var members := [member];
    assert Units(members) == {member};
    allowed, oldest := single.SingleScript(now, member);
    allowed', oldest' := batch.BatchScript(now, members);
  }

  /** The units of the window at `now` that are out of it at `later`. */
  function Leaving(h: History, now: int, later: int, window: int): set<Member> {
    set m | m in Window(h, now, window) && All(h)[m] <= later - window
  }

  lemma WindowLater(h: History, g: History, now: int, later: int, window: int)
    requires NotAfter(h, now) && now <= later && window > 0 && All(g) == All(h)
    ensures Window(g, later, window) == Window(h, now, window) - Leaving(h, now, later, window)
    ensures Leaving(h, now, later, window) <= Window(h, now, window)
  {
    forall m | m in All(h) ensures All(h)[m] <= now {
      UnitsNotAfter(h, now, m);
    }
  }

  /** `t` is the time of the k-th oldest unit in the window. */
  ghost predicate IsKthOldest(h: History, now: int, window: int, k: nat, t: int) {
    && |UpTo(h, now, window, t)| >= k
    && forall s :: s < t ==> |UpTo(h, now, window, s)| < k
  }

  /** The units of the window no later than `t`. */
  function UpTo(h: History, now: int, window: int, t: int): set<Member> {
    set m | m in Window(h, now, window) && All(h)[m] <= t
  }

  lemma UpToGrows(h: History, now: int, window: int, s: int, t: int)
    requires s <= t
    ensures |UpTo(h, now, window, s)| <= |UpTo(h, now, window, t)|
  {
    SubsetSize(UpTo(h, now, window, s), UpTo(h, now, window, t));
  }

  lemma {:induction false} KthOldestExists(h: History, now: int, window: int, k: nat, t: int) returns (kth: int)
    requires 1 <= k <= |UpTo(h, now, window, t)| && now - window < t
    ensures IsKthOldest(h, now, window, k, kth) && now - window < kth <= t
    decreases t - (now - window)
  {
    if |UpTo(h, now, window, t - 1)| >= k {
      assert t - 1 == now - window ==> UpTo(h, now, window, t - 1) == {};
      kth := KthOldestExists(h, now, window, k, t - 1);
    } else {
      kth := t;
      forall s | s < t ensures |UpTo(h, now, window, s)| < k {
        UpToGrows(h, now, window, s, t - 1);
      }
    }
  }

  /** A batch that lacks k places is admitted, if its client waits its Retry-After alone, exactly when it is
      no larger than the limit and the k-th oldest unit's remaining time is over by then: the Retry-After is
      the oldest one's. */
  lemma BatchRetryExactly(h: History, now: int, count: nat, oldest: int, kth: int, limit: int, window: int)
    requires Legal(h, limit, window) && NotAfter(h, now) && window > 0
    requires !Fits(h, now, count, limit, window) && IsOldest(h, now, window, oldest)
    requires count <= limit ==> IsKthOldest(h, now, window, |Window(h, now, window)| + count - limit, kth)
    ensures Fits(h + [Refuse(now, count)], now + 1000 * RetryAfter(oldest, now, window), count, limit, window) <==>
            count <= limit && kth + window - now <= 1000 * RetryAfter(oldest, now, window)
  {
    hide Window, Leaving, Legal, All;
    var later := now + 1000 * RetryAfter(oldest, now, window);
    var g := h + [Refuse(now, count)];
    SameUnits(h, Refuse(now, count));
    WindowLater(h, g, now, later, window);
    assert Window(h, now, window) == Window(g, later, window) + Leaving(h, now, later, window);
    LeavingIsUpTo(h, now, later, window);
    if count <= limit && kth <= later - window {
      UpToGrows(h, now, window, kth, later - window);
    }
  }

  lemma SameUnits(h: History, e: Event)
    requires e.Refuse?
    ensures All(h + [e]) == All(h)
  {
    assert (h + [e])[..|h + [e]| - 1] == h;
  }

  lemma LeavingIsUpTo(h: History, now: int, later: int, window: int)
    ensures Leaving(h, now, later, window) == UpTo(h, now, window, later - window)
  {
  }

  /** A batch larger than the limit is refused whenever it is sent, whatever Retry-After it is given. */
  lemma OversizedBatchNeverFits(h: History, now: int, count: nat, limit: int, window: int)
    requires count > limit
    ensures !Fits(h, now, count, limit, window)
  {
    assert |Window(h, now, window)| >= 0;
  }

  lemma TwoUnits(h: History, t: int)
    requires h == [Admit(0, {"a"}), Admit(30_000, {"b"})] && 30_000 <= t < 60_000
    ensures All(h) == map["a" := 0, "b" := 30_000] && Legal(h, 2, 60_000) && NotAfter(h, t)
    ensures Window(h, t, 60_000) == {"a", "b"}
  {
    assert h[..0] == [] && h[..1] == [Admit(0, {"a"})] && h[..1][..0] == [];
    assert All([]) == map[] && All(h[..1]) == map["a" := 0];
    assert All(h) == map["a" := 0, "b" := 30_000];
    assert Window([], 0, 60_000) == {} && Window(h[..1], 30_000, 60_000) == {"a"};
    assert Entitled(h[..0], h[0], 2, 60_000) && Entitled(h[..1], h[1], 2, 60_000);
  }

  /** Two units thirty seconds apart, two a minute, and a batch of two: told to wait for the first unit, it
      is refused again for the second. */
  lemma BatchRetryTooShort() returns (h: History)
    ensures Legal(h, 2, 60_000) && NotAfter(h, 40_000) && IsOldest(h, 40_000, 60_000, 0)
    ensures !Fits(h, 40_000, 2, 2, 60_000) && RetryAfter(0, 40_000, 60_000) == 20
    ensures !Fits(h + [Refuse(40_000, 2)], 60_000, 2, 2, 60_000)
  {
    h := [Admit(0, {"a"}), Admit(30_000, {"b"})];
    TwoUnits(h, 40_000);
    hide Legal, All, Window;
    assert "a" in Window(h, 40_000, 60_000) && All(h)["a"] == 0;
    assert UpTo(h, 40_000, 60_000, 30_000) == {"a", "b"};
    forall s | s < 30_000 ensures |UpTo(h, 40_000, 60_000, s)| < 2 {
      SubsetSize(UpTo(h, 40_000, 60_000, s), {"a"});
    }
    BatchRetryExactly(h, 40_000, 2, 0, 30_000, 2, 60_000);
  }

  lemma {:induction false} SmallestScore(m: map<Member, int>)
    requires m != map[]
    ensures exists first :: first in m && forall n :: n in m ==> m[first] <= m[n]
    decreases |m|
  {
    var x :| x in m;
    var rest := m - {x};
    if rest == map[] {
      assert m.Keys == rest.Keys + {x};
    } else {
      SmallestScore(rest);
      var y :| y in rest && forall n :: n in rest ==> rest[y] <= rest[n];
      var best := if m[x] <= m[y] then x else y;
      assert forall n :: n in m ==> n == x || n in rest;
      assert best in m && forall n :: n in m ==> m[best] <= m[n];
    }
  }
}
