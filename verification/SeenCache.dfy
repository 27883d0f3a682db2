/**
 The duplicate-suppression cache of the mesh (`remember_message`) and the
 oldest-first eviction it shares with the route-hint table.

 Instants are naturals in nanoseconds.  `HashMap` iteration order is arbitrary, so the
 choice among equally old entries is arbitrary too: a call is a relation, not a function.
 */
module SeenCache {
  import opened Base

  const SEEN_TTL: nat := 120_000_000_000
  const MAX_SEEN_IDS: nat := 8192

  /** `Instant::duration_since`, which saturates at zero. */
  function Age(now: nat, stamp: nat): (age: nat) {
    if now >= stamp then now - stamp else 0
  }

  // ---------------------------------------------------------------- eviction

  /** `kept` is `all` without its oldest `|all| - cap` entries, ties broken arbitrarily. */
  ghost predicate OldestDropped<K>(all: map<K, nat>, kept: map<K, nat>, cap: nat) {
    && kept.Keys <= all.Keys
    && |kept.Keys| == cap
    && (forall id <- kept :: kept[id] == all[id])
    && (forall out <- all, id <- kept :: out !in kept ==> all[out] <= all[id])
  }

  ghost predicate SortedEntries<K>(entries: seq<(K, nat)>, m: map<K, nat>) {
    && |entries| == |m.Keys|
    && (forall i | 0 <= i < |entries| :: entries[i].0 in m && m[entries[i].0] == entries[i].1)
    && (forall i, j | 0 <= i < j < |entries| :: entries[i].0 != entries[j].0)
    && (forall i, j | 0 <= i < j < |entries| :: entries[i].1 <= entries[j].1)
  }

  /** One of the oldest keys of `rest`. */
  method OldestOf<K(==)>(m: map<K, nat>, rest: set<K>) returns (oldest: K)
    requires rest <= m.Keys && rest != {}
    ensures oldest in rest
    ensures forall id <- rest :: m[oldest] <= m[id]
  {
    oldest :| oldest in rest;
    var todo := rest;
    while todo != {}
      invariant todo <= rest
      invariant oldest in rest
      invariant forall id <- rest - todo :: m[oldest] <= m[id]
      decreases |todo|
    {
      var id :| id in todo;
      if m[id] < m[oldest] {
        oldest := id;
      }
      todo := todo - {id};
    }
  }

  /** The entries of a map, sorted by time stamp. */
  method SortByStamp<K(==)>(m: map<K, nat>) returns (entries: seq<(K, nat)>)
    ensures SortedEntries(entries, m)
  {
    entries := [];
    var rest := m.Keys;
    while rest != {}
      invariant rest <= m.Keys
      invariant |entries| + |rest| == |m.Keys|
      invariant forall i | 0 <= i < |entries| ::
          entries[i].0 in m && entries[i].0 !in rest && m[entries[i].0] == entries[i].1
      invariant forall i, j | 0 <= i < j < |entries| :: entries[i].0 != entries[j].0
      invariant forall i, j | 0 <= i < j < |entries| :: entries[i].1 <= entries[j].1
      invariant forall i, id | 0 <= i < |entries| && id in rest :: entries[i].1 <= m[id]
      decreases |rest|
    {
      var id := OldestOf(m, rest);
      entries := entries + [(id, m[id])];
      rest := rest - {id};
    }
  }

  ghost function FirstKeys<K>(entries: seq<(K, nat)>, n: nat): (keys: set<K>)
    requires n <= |entries|
  {
    set i | 0 <= i < n :: entries[i].0
  }

  lemma FirstKeysNext<K>(entries: seq<(K, nat)>, n: nat)
    requires n < |entries|
    ensures FirstKeys(entries, n + 1) == FirstKeys(entries, n) + {entries[n].0}
  {
  }

  lemma {:induction false} FirstKeysCount<K>(entries: seq<(K, nat)>, m: map<K, nat>, n: nat)
    requires SortedEntries(entries, m) && n <= |entries|
    ensures |FirstKeys(entries, n)| == n
  {
    if n > 0 {
      FirstKeysCount(entries, m, n - 1);
      FirstKeysNext(entries, n - 1);
    }
  }

  /** All entries are listed: a key that is not among the first `n` has a later index. */
  lemma EntriesCover<K>(entries: seq<(K, nat)>, m: map<K, nat>, id: K)
    requires SortedEntries(entries, m) && id in m
    ensures exists i :: 0 <= i < |entries| && entries[i].0 == id
  {
    var all := FirstKeys(entries, |entries|);
    FirstKeysCount(entries, m, |entries|);
    SubsetOfSameSize(all, m.Keys);
    assert id in all;
  }

  /** Sorts the entries by age and removes the first of them until `cap` are left. */
  method DropOldest<K(==)>(m: map<K, nat>, cap: nat) returns (kept: map<K, nat>)
    requires |m.Keys| > cap
    ensures OldestDropped(m, kept, cap)
  {
    var entries := SortByStamp(m);
    var removeCount := |m.Keys| - cap;
    kept := m;
    for i := 0 to removeCount
      invariant kept.Keys == m.Keys - FirstKeys(entries, i)
      invariant forall id <- kept :: kept[id] == m[id]
    {
      kept := kept - {entries[i].0};
      FirstKeysNext(entries, i);
    }
    FirstGoneIsOldest(m, entries, removeCount, kept);
  }

  lemma FirstGoneIsOldest<K>(m: map<K, nat>, entries: seq<(K, nat)>, n: nat, kept: map<K, nat>)
    requires SortedEntries(entries, m) && n <= |entries|
    requires kept.Keys == m.Keys - FirstKeys(entries, n) && forall id <- kept :: kept[id] == m[id]
    ensures OldestDropped(m, kept, |m.Keys| - n)
  {
    var gone := FirstKeys(entries, n);
    FirstKeysCount(entries, m, n);
    assert gone <= m.Keys;
    assert |m.Keys - gone| == |m.Keys| - |gone|;
    forall out <- m, id <- kept | out !in kept
      ensures m[out] <= m[id]
    {
      EntriesCover(entries, m, id);
      var i :| 0 <= i < |entries| && entries[i].0 == id;
      var j :| 0 <= j < n && entries[j].0 == out;
      assert j < i;
    }
  }

  // ---------------------------------------------------------------- remember_message

  function Young(seen: map<string, nat>, now: nat): (r: map<string, nat>) {
    map id | id in seen && Age(now, seen[id]) <= SEEN_TTL :: seen[id]
  }

  /** What a lookup at time `now` answers: `true` means the id is taken as new. */
  predicate Accepts(seen: map<string, nat>, id: string, now: nat) {
    id in seen ==> Age(now, seen[id]) >= SEEN_TTL
  }

  /** One call of `remember_message`. */
  ghost predicate Remembers(seen: map<string, nat>, id: string, now: nat, seen': map<string, nat>, accepted: bool) {
    && accepted == Accepts(seen, id, now)
    && if !accepted then seen' == seen else
       var added := seen[id := now];
       if |added.Keys| <= MAX_SEEN_IDS then seen' == added else
       var young := Young(added, now);
       if |young.Keys| <= MAX_SEEN_IDS then seen' == young else
       OldestDropped(young, seen', MAX_SEEN_IDS)
  }

  class SeenIds {
    var seen: map<string, nat>

    constructor ()
      ensures seen == map[]
    {
      seen := map[];
    }

    method Remember(id: string, now: nat) returns (accepted: bool)
      modifies this
      ensures Remembers(old(seen), id, now, seen, accepted)
    {
      if id in seen && Age(now, seen[id]) < SEEN_TTL {
        return false;
      }
      seen := seen[id := now];
      if |seen.Keys| > MAX_SEEN_IDS {
        seen := Young(seen, now);
        if |seen.Keys| > MAX_SEEN_IDS {
          seen := DropOldest(seen, MAX_SEEN_IDS);
        }
      }
      return true;
    }
  }

  // ---------------------------------------------------------------- refinement

  datatype Call = Call(id: string, now: nat)

  /** The unbounded log: it never evicts. */
  function Logged(log: map<string, nat>, c: Call): (log': map<string, nat>) {
    if Accepts(log, c.id, c.now) then log[c.id := c.now] else log
  }

  function LogAfter(calls: seq<Call>): (log: map<string, nat>) {
    if calls == [] then map[] else Logged(LogAfter(calls[..|calls| - 1]), calls[|calls| - 1])
  }

  /** A run of the cache from empty, with the clock read under the lock. */
  ghost predicate CacheRun(calls: seq<Call>, caches: seq<map<string, nat>>, answers: seq<bool>) {
    && |caches| == |calls| + 1
    && |answers| == |calls|
    && caches[0] == map[]
    && (forall i | 0 <= i < |calls| ::
          Remembers(caches[i], calls[i].id, calls[i].now, caches[i + 1], answers[i]))
    && (forall i, j | 0 <= i <= j < |calls| :: calls[i].now <= calls[j].now)
  }

  ghost function Window(log: map<string, nat>, now: nat): (ids: set<string>) {
    set id | id in log && Age(now, log[id]) < SEEN_TTL
  }

  /** Some call finds more than 8192 ids accepted during the 120 s that end with it. */
  ghost predicate Overflow(calls: seq<Call>, i: nat)
    requires i < |calls|
  {
    |Window(LogAfter(calls[..i + 1]), calls[i].now)| > MAX_SEEN_IDS
  }

  /** The two answer every later query alike. */
  ghost predicate Agrees(cache: map<string, nat>, log: map<string, nat>, now: nat) {
    forall id: string, t: nat | t >= now :: Accepts(cache, id, t) == Accepts(log, id, t)
  }

  /** The cache is part of the log and holds all of the log that can still refuse an id. */
  ghost predicate Synced(cache: map<string, nat>, log: map<string, nat>, now: nat) {
    && (forall id <- cache :: id in log && cache[id] == log[id])
    && (forall id <- log :: log[id] <= now)
    && (forall id <- Window(log, now) :: id in cache)
  }

  lemma SyncedAgrees(cache: map<string, nat>, log: map<string, nat>, now: nat)
    requires Synced(cache, log, now)
    ensures Agrees(cache, log, now)
  {
    forall id: string, t: nat | t >= now
      ensures Accepts(cache, id, t) == Accepts(log, id, t)
    {
      if id in log && id !in cache {
        assert id !in Window(log, now);
      }
    }
  }

  /** An entry evicted while young would put 8193 ids in the window. */
  lemma EvictedIsOld(young: map<string, nat>, kept: map<string, nat>, log: map<string, nat>, now: nat, out: string)
    requires OldestDropped(young, kept, MAX_SEEN_IDS)
    requires forall id <- young :: id in log && young[id] == log[id]
    requires forall id <- log :: log[id] <= now
    requires |Window(log, now)| <= MAX_SEEN_IDS
    requires out in young && out !in kept
    ensures Age(now, young[out]) >= SEEN_TTL
  {
    if Age(now, young[out]) < SEEN_TTL {
      assert kept.Keys + {out} <= Window(log, now);
      SubsetSize(kept.Keys + {out}, Window(log, now));
    }
  }

  lemma SyncedStep(cache: map<string, nat>, log: map<string, nat>, before: nat, c: Call, cache': map<string, nat>,
                   accepted: bool)
    requires Synced(cache, log, before) && before <= c.now
    requires Remembers(cache, c.id, c.now, cache', accepted)
    requires |Window(Logged(log, c), c.now)| <= MAX_SEEN_IDS
    ensures Synced(cache', Logged(log, c), c.now)
    ensures accepted == Accepts(log, c.id, c.now)
  {
    SyncedAgrees(cache, log, before);
    assert Accepts(cache, c.id, c.now) == Accepts(log, c.id, c.now);
    var log' := Logged(log, c);
    if accepted {
      var added := cache[c.id := c.now];
      var young := Young(added, c.now);
      forall id | id in Window(log', c.now)
        ensures id in cache'
      {
        if id != c.id {
          assert id in Window(log, before);
        }
        assert id in added && id in young;
        if |added.Keys| > MAX_SEEN_IDS && |young.Keys| > MAX_SEEN_IDS && id !in cache' {
          EvictedIsOld(young, cache', log', c.now, id);
        }
      }
    } else {
      forall id | id in Window(log', c.now)
        ensures id in cache'
      {
        assert id in Window(log, before);
      }
    }
  }

  lemma {:induction false} RunBounded(calls: seq<Call>, caches: seq<map<string, nat>>, answers: seq<bool>, n: nat)
    requires CacheRun(calls, caches, answers) && n <= |calls|
    ensures |caches[n].Keys| <= MAX_SEEN_IDS
  {
    if n > 0 {
      RunBounded(calls, caches, answers, n - 1);
      assert Remembers(caches[n - 1], calls[n - 1].id, calls[n - 1].now, caches[n], answers[n - 1]);
    }
  }

  ghost function LastTime(calls: seq<Call>, n: nat): (t: nat)
    requires n <= |calls|
  {
    if n == 0 then 0 else calls[n - 1].now
  }

  lemma LogStep(calls: seq<Call>, n: nat)
    requires n < |calls|
    ensures LogAfter(calls[..n + 1]) == Logged(LogAfter(calls[..n]), calls[n])
  {
    assert calls[..n + 1][..n] == calls[..n];
  }

  lemma {:induction false} RunSynced(calls: seq<Call>, caches: seq<map<string, nat>>, answers: seq<bool>, n: nat)
    requires CacheRun(calls, caches, answers) && n <= |calls|
    requires forall i | 0 <= i < n :: !Overflow(calls, i)
    ensures Synced(caches[n], LogAfter(calls[..n]), LastTime(calls, n))
  {
    if n > 0 {
      RunSynced(calls, caches, answers, n - 1);
      RunSyncedStep(calls, caches, answers, n - 1);
    }
  }

  lemma RunSyncedStep(calls: seq<Call>, caches: seq<map<string, nat>>, answers: seq<bool>, n: nat)
    requires CacheRun(calls, caches, answers) && n < |calls| && !Overflow(calls, n)
    requires Synced(caches[n], LogAfter(calls[..n]), LastTime(calls, n))
    ensures Synced(caches[n + 1], LogAfter(calls[..n + 1]), calls[n].now)
    ensures answers[n] == Accepts(LogAfter(calls[..n]), calls[n].id, calls[n].now)
  {
    LogStep(calls, n);
    assert Remembers(caches[n], calls[n].id, calls[n].now, caches[n + 1], answers[n]);
    SyncedStep(caches[n], LogAfter(calls[..n]), LastTime(calls, n), calls[n], caches[n + 1], answers[n]);
  }

  /** A full window cannot be held by 8192 entries, so some refused id would be accepted. */
  lemma OverflowDisagrees(cache: map<string, nat>, log: map<string, nat>, now: nat)
    requires |cache.Keys| <= MAX_SEEN_IDS && |Window(log, now)| > MAX_SEEN_IDS
    ensures !Agrees(cache, log, now)
  {
    if Window(log, now) <= cache.Keys {
      SubsetSize(Window(log, now), cache.Keys);
    }
    var id :| id in Window(log, now) && id !in cache;
    assert Accepts(cache, id, now) != Accepts(log, id, now);
  }

  /**
   The cache is the unbounded 120-second log exactly as long as no 120-second window
   accepts more than 8192 ids; it never holds more than 8192 ids in any case.
   */
  lemma SeenCacheRefinesLog(calls: seq<Call>, caches: seq<map<string, nat>>, answers: seq<bool>)
    requires CacheRun(calls, caches, answers)
    ensures forall n | 0 <= n <= |calls| :: |caches[n].Keys| <= MAX_SEEN_IDS
    ensures (forall n | 0 <= n < |calls| :: Agrees(caches[n + 1], LogAfter(calls[..n + 1]), calls[n].now))
       <==> (forall n | 0 <= n < |calls| :: !Overflow(calls, n))
    ensures (forall n | 0 <= n < |calls| :: !Overflow(calls, n)) ==>
            forall n | 0 <= n < |calls| :: answers[n] == Accepts(LogAfter(calls[..n]), calls[n].id, calls[n].now)
  {
    forall n | 0 <= n <= |calls|
      ensures |caches[n].Keys| <= MAX_SEEN_IDS
    {
      RunBounded(calls, caches, answers, n);
    }
    if forall n | 0 <= n < |calls| :: !Overflow(calls, n) {
      forall n | 0 <= n < |calls|
        ensures Agrees(caches[n + 1], LogAfter(calls[..n + 1]), calls[n].now)
        ensures answers[n] == Accepts(LogAfter(calls[..n]), calls[n].id, calls[n].now)
      {
        RunSynced(calls, caches, answers, n);
        RunSyncedStep(calls, caches, answers, n);
        SyncedAgrees(caches[n + 1], LogAfter(calls[..n + 1]), calls[n].now);
      }
    } else {
      var n :| 0 <= n < |calls| && Overflow(calls, n);
      OverflowDisagrees(caches[n + 1], LogAfter(calls[..n + 1]), calls[n].now);
    }
  }
}
