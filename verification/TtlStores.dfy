/** The two stores with expiring entries: idempotency keys (src/internal/idempotency.ts) and
    nonces (src/internal/security.ts).  In both, purging expired entries must not be observable;
    whether it is depends on the clock, whose readings may come in any order here. */
module TtlStores {
  import opened Common

  // ---------------------------------------------------------------------------
  // Idempotency keys
  // ---------------------------------------------------------------------------

  datatype Entry = Entry(fingerprint: string, response: string, expiresAt: int)

  datatype Verdict = New | Duplicate(response: string) | Conflict

  /** Every operation with the time at which it runs. */
  datatype Event =
    | Check(key: string, fingerprint: string, now: int)
    | Store(key: string, entry: Entry, now: int)
    | Cleanup(now: int)

  function DoCheck(entries: map<string, Entry>, key: string, fingerprint: string, now: int)
    : (Verdict, map<string, Entry>)
  {
    if key !in entries then (New, entries)
    else if entries[key].expiresAt <= now then (New, entries - {key})
    else if entries[key].fingerprint == fingerprint then (Duplicate(entries[key].response), entries)
    else (Conflict, entries)
  }

  function DoCleanup(entries: map<string, Entry>, now: int): map<string, Entry> {
    map key | key in entries && entries[key].expiresAt > now :: entries[key]
  }

  function Step(entries: map<string, Entry>, ev: Event): map<string, Entry> {
    match ev
    case Check(key, fingerprint, now) => DoCheck(entries, key, fingerprint, now).1
    case Store(key, entry, _) => entries[key := entry]
    case Cleanup(now) => DoCleanup(entries, now)
  }

  /** The store after a history of operations, oldest first. */
  function Run(evs: seq<Event>): map<string, Entry> {
    if evs == [] then map[] else Step(Run(evs[..|evs| - 1]), evs[|evs| - 1])
  }

  /** The history is in order of time and over by `now`. */
  predicate OverBy(evs: seq<Event>, now: int) {
    evs != [] ==> evs[|evs| - 1].now <= now && OverBy(evs[..|evs| - 1], evs[|evs| - 1].now)
  }

  /** What was stored last under a key, purged or not. */
  function LatestStore(evs: seq<Event>, key: string): Option<Entry> {
    if evs == [] then None
    else
      var last := evs[|evs| - 1];
      if last.Store? && last.key == key then Some(last.entry) else LatestStore(evs[..|evs| - 1], key)
  }

  function VerdictOn(latest: Option<Entry>, fingerprint: string, now: int): Verdict {
    if latest.None? || latest.value.expiresAt <= now then New
    else if latest.value.fingerprint == fingerprint then Duplicate(latest.value.response)
    else Conflict
  }

  /** Since the latest store of the key, a cleanup or a check of the key ran at or after its expiry. */
  predicate PurgedAfterStore(evs: seq<Event>, key: string) {
    if evs == [] then false
    else
      var init, last := evs[..|evs| - 1], evs[|evs| - 1];
      if last.Store? && last.key == key then false
      else
        || PurgedAfterStore(init, key)
        || ((last.Cleanup? || (last.Check? && last.key == key))
            && LatestStore(init, key).Some? && LatestStore(init, key).value.expiresAt <= last.now)
  }

  /** What the store holds after any history: under each key the latest entry stored, unless it
      has been purged since. */
  lemma {:induction false} HoldsLatestUnlessPurged(evs: seq<Event>, key: string)
    ensures key in Run(evs) <==> LatestStore(evs, key).Some? && !PurgedAfterStore(evs, key)
    ensures key in Run(evs) ==> Run(evs)[key] == LatestStore(evs, key).value
    decreases |evs|
  {
    if evs != [] { HoldsLatestUnlessPurged(evs[..|evs| - 1], key); }
  }

  /** For every history, in whatever order its clock readings: `check` answers as the latest
      `store` of the key says, if and only if that entry has not been purged although it is valid now. */
  lemma CheckAnswersFromHistoryIff(evs: seq<Event>, key: string, fingerprint: string, now: int)
    ensures DoCheck(Run(evs), key, fingerprint, now).0
      == if PurgedAfterStore(evs, key) then New else VerdictOn(LatestStore(evs, key), fingerprint, now)
    ensures DoCheck(Run(evs), key, fingerprint, now).0 == VerdictOn(LatestStore(evs, key), fingerprint, now)
      <==> !(PurgedAfterStore(evs, key)
             && LatestStore(evs, key).Some? && LatestStore(evs, key).value.expiresAt > now)
  {
    HoldsLatestUnlessPurged(evs, key);
  }

  lemma OverByLater(evs: seq<Event>, a: int, b: int)
    requires OverBy(evs, a) && a <= b
    ensures OverBy(evs, b)
  {
  }

  /** While the clock does not run backwards, whatever has been purged has expired for good. */
  lemma {:induction false} PurgedMeansExpired(evs: seq<Event>, key: string, now: int)
    requires OverBy(evs, now) && PurgedAfterStore(evs, key)
    ensures LatestStore(evs, key).Some? && LatestStore(evs, key).value.expiresAt <= now
    decreases |evs|
  {
    var init, last := evs[..|evs| - 1], evs[|evs| - 1];
    if PurgedAfterStore(init, key) {
      OverByLater(init, last.now, now);
      PurgedMeansExpired(init, key, now);
    }
  }

  /** So with such a clock `check` always answers as the latest `store` of the key in the whole
      history says, whatever checks and cleanups came in between. */
  lemma CheckAnswersFromHistory(evs: seq<Event>, key: string, fingerprint: string, now: int)
    requires OverBy(evs, now)
    ensures DoCheck(Run(evs), key, fingerprint, now).0 == VerdictOn(LatestStore(evs, key), fingerprint, now)
  {
    CheckAnswersFromHistoryIff(evs, key, fingerprint, now);
    if PurgedAfterStore(evs, key) { PurgedMeansExpired(evs, key, now); }
  }

  /** A clock that is set back shows the purge. */
  lemma ClockMustNotRunBackwards(key: string, entry: Entry)
    ensures var evs := [Store(key, entry, 0), Cleanup(entry.expiresAt)];
      && DoCheck(Run(evs), key, entry.fingerprint, entry.expiresAt - 1).0 == New
      && VerdictOn(LatestStore(evs, key), entry.fingerprint, entry.expiresAt - 1) == Duplicate(entry.response)
  {
    var evs := [Store(key, entry, 0), Cleanup(entry.expiresAt)];
    assert evs[..1] == [Store(key, entry, 0)] && evs[..1][..0] == [];
    assert Run(evs[..1]) == map[][key := entry];
    assert LatestStore(evs[..1], key) == Some(entry);
  }

  class IdempotencyStore {
    const defaultTtlSeconds: int
    var entries: map<string, Entry>
    var expiredCleaned: nat
    /** The operations so far. */
    ghost var history: seq<Event>

    ghost predicate Valid() reads this { entries == Run(history) }

    constructor (defaultTtlSeconds: int)
      ensures Valid() && history == [] && this.defaultTtlSeconds == defaultTtlSeconds
    {
      this.defaultTtlSeconds := defaultTtlSeconds;
      entries, expiredCleaned, history := map[], 0, [];
    }

    method CheckKey(key: string, fingerprint: string, now: int) returns (verdict: Verdict)
      requires Valid()
      modifies this
      ensures Valid() && history == old(history) + [Check(key, fingerprint, now)]
      ensures verdict == if PurgedAfterStore(old(history), key) then New
                         else VerdictOn(LatestStore(old(history), key), fingerprint, now)
      ensures OverBy(old(history), now) ==> verdict == VerdictOn(LatestStore(old(history), key), fingerprint, now)
      ensures expiredCleaned + |entries| == old(expiredCleaned + |entries|)
    {
      CheckAnswersFromHistoryIff(history, key, fingerprint, now);
      if OverBy(history, now) { CheckAnswersFromHistory(history, key, fingerprint, now); }
      ghost var ev := Check(key, fingerprint, now);
      assert (history + [ev])[..|history|] == history;
      history := history + [ev];
      if key !in entries { return New; }
      var entry := entries[key];
      if entry.expiresAt <= now {
        RemoveOne(entries, key);
        entries := entries - {key};
        expiredCleaned := expiredCleaned + 1;
        return New;
      }
      if entry.fingerprint == fingerprint { return Duplicate(entry.response); }
      return Conflict;
    }

    method StoreResponse(key: string, fingerprint: string, response: string, ttlSeconds: Option<int>, now: int)
      requires Valid()
      modifies this
      ensures Valid() && expiredCleaned == old(expiredCleaned)
      ensures var ttl := if ttlSeconds.Some? then ttlSeconds.value else defaultTtlSeconds;
        history == old(history) + [Store(key, Entry(fingerprint, response, now + ttl * 1000), now)]
    {
      var ttl := if ttlSeconds.Some? then ttlSeconds.value else defaultTtlSeconds;
      var entry := Entry(fingerprint, response, now + ttl * 1000);
      assert (history + [Store(key, entry, now)])[..|history|] == history;
      history := history + [Store(key, entry, now)];
      entries := entries[key := entry];
    }

    /** Every purged entry is counted. */
    method CleanupExpired(now: int)
      requires Valid()
      modifies this
      ensures Valid() && history == old(history) + [Cleanup(now)]
      ensures expiredCleaned + |entries| == old(expiredCleaned + |entries|)
    {
      var todo := entries.Keys;
      while todo != {}
        invariant todo <= old(entries).Keys && history == old(history)
        invariant entries == map k | k in old(entries) && (k in todo || old(entries)[k].expiresAt > now) :: old(entries)[k]
        invariant expiredCleaned + |entries| == old(expiredCleaned + |entries|)
        decreases |todo|
      {
        var key :| key in todo;
        todo := todo - {key};
        if entries[key].expiresAt <= now {
          RemoveOne(entries, key);
          entries := entries - {key};
          expiredCleaned := expiredCleaned + 1;
        }
      }
      assert (history + [Cleanup(now)])[..|history|] == history;
      history := history + [Cleanup(now)];
    }
  }

  lemma RemoveOne<V>(m: map<string, V>, key: string)
    requires key in m
    ensures |m - {key}| == |m| - 1
  {
    assert (m - {key}).Keys == m.Keys - {key};
    assert |m - {key}| == |(m - {key}).Keys|;
  }

  // ---------------------------------------------------------------------------
  // Nonces
  // ---------------------------------------------------------------------------

  datatype NonceEvent = Add(nonce: string, ttlMs: int, now: int) | Purge(now: int)

  /** `add`: whether the nonce is accepted, and the cache of expiry times afterwards. */
  function DoAdd(cache: map<string, int>, nonce: string, ttlMs: int, now: int): (bool, map<string, int>) {
    if nonce in cache && cache[nonce] > now then (false, cache)
    else (true, cache[nonce := now + ttlMs])
  }

  function NonceStep(cache: map<string, int>, ev: NonceEvent): map<string, int> {
    match ev
    case Add(nonce, ttlMs, now) => DoAdd(cache, nonce, ttlMs, now).1
    case Purge(now) => map n | n in cache && cache[n] > now :: cache[n]
  }

  function NonceRun(evs: seq<NonceEvent>): map<string, int> {
    if evs == [] then map[] else NonceStep(NonceRun(evs[..|evs| - 1]), evs[|evs| - 1])
  }

  predicate NoncesOverBy(evs: seq<NonceEvent>, now: int) {
    evs != [] ==> evs[|evs| - 1].now <= now && NoncesOverBy(evs[..|evs| - 1], evs[|evs| - 1].now)
  }

  /** Operation `i` of the history accepted the nonce. */
  predicate AcceptedAt(evs: seq<NonceEvent>, i: nat, nonce: string) {
    && i < |evs| && evs[i].Add? && evs[i].nonce == nonce
    && DoAdd(NonceRun(evs[..i]), nonce, evs[i].ttlMs, evs[i].now).0
  }

  predicate AcceptedAndValid(evs: seq<NonceEvent>, i: nat, nonce: string, now: int) {
    AcceptedAt(evs, i, nonce) && evs[i].now + evs[i].ttlMs > now
  }

  /** After the acceptance at `i`, a purge or another `add` of the nonce ran at or after its expiry. */
  ghost predicate Forgotten(evs: seq<NonceEvent>, i: nat, nonce: string)
    requires i < |evs| && evs[i].Add?
  {
    exists k :: i < k < |evs| && (evs[k].Add? ==> evs[k].nonce == nonce) && evs[i].now + evs[i].ttlMs <= evs[k].now
  }

  /** The acceptance that the cache remembers. */
  ghost predicate Held(evs: seq<NonceEvent>, i: nat, nonce: string) {
    AcceptedAt(evs, i, nonce) && !Forgotten(evs, i, nonce)
  }

  /** The nonce is in the cache exactly if some acceptance is held, with its expiry. */
  ghost predicate CacheShowsHeld(evs: seq<NonceEvent>, nonce: string) {
    && (nonce in NonceRun(evs) ==> exists i: nat :: Held(evs, i, nonce))
    && (forall i: nat :: Held(evs, i, nonce) ==>
          nonce in NonceRun(evs) && NonceRun(evs)[nonce] == evs[i].now + evs[i].ttlMs)
  }

  /** An older acceptance is held after one more operation if it was and that one does not forget it. */
  lemma HeldLater(evs: seq<NonceEvent>, i: nat, nonce: string)
    requires i + 1 < |evs|
    ensures var n := |evs| - 1;
      Held(evs, i, nonce) <==>
      (Held(evs[..n], i, nonce) && !((evs[n].Add? ==> evs[n].nonce == nonce) && evs[i].now + evs[i].ttlMs <= evs[n].now))
  {
    var n := |evs| - 1;
    assert evs[..n][..i] == evs[..i];
    assert forall k :: i < k < n ==> evs[..n][k] == evs[k];
  }

  lemma {:induction false} CacheHoldsUnforgotten(evs: seq<NonceEvent>, nonce: string)
    ensures CacheShowsHeld(evs, nonce)
    decreases |evs|
  {
    if evs != [] {
      var n := |evs| - 1;
      var init, last := evs[..n], evs[n];
      CacheHoldsUnforgotten(init, nonce);
      if nonce in NonceRun(evs) {
        if AcceptedAt(evs, n, nonce) {
          assert Held(evs, n, nonce);
        } else {
          var i: nat :| Held(init, i, nonce);
          HeldLater(evs, i, nonce);
          assert Held(evs, i, nonce);
        }
      }
      forall i: nat | Held(evs, i, nonce)
        ensures nonce in NonceRun(evs) && NonceRun(evs)[nonce] == evs[i].now + evs[i].ttlMs
      {
        if i < n { HeldLater(evs, i, nonce); }
      }
    }
  }

  /** For every history, in whatever order its clock readings: `add` accepts a nonce if and only
      if no acceptance of it is both still valid and not yet forgotten. */
  lemma NonceAcceptedIff(evs: seq<NonceEvent>, nonce: string, ttlMs: int, now: int)
    ensures DoAdd(NonceRun(evs), nonce, ttlMs, now).0
      <==> forall i: nat :: AcceptedAndValid(evs, i, nonce, now) ==> Forgotten(evs, i, nonce)
  {
    CacheHoldsUnforgotten(evs, nonce);
    if nonce in NonceRun(evs) {
      var i: nat :| Held(evs, i, nonce);
      if NonceRun(evs)[nonce] > now { assert AcceptedAndValid(evs, i, nonce, now); }
    }
  }

  /** `add` keeps its promise (accept exactly what has no valid acceptance) if and only if not
      all the valid acceptances have been forgotten; and forgetting a valid one takes a clock
      that has been set back. */
  lemma ReplayProtectedIff(evs: seq<NonceEvent>, nonce: string, ttlMs: int, now: int)
    ensures DoAdd(NonceRun(evs), nonce, ttlMs, now).0 == (!exists i: nat :: AcceptedAndValid(evs, i, nonce, now))
      <==> ((exists i: nat :: AcceptedAndValid(evs, i, nonce, now)) ==>
              exists i: nat :: AcceptedAndValid(evs, i, nonce, now) && !Forgotten(evs, i, nonce))
    ensures forall i: nat :: AcceptedAndValid(evs, i, nonce, now) && Forgotten(evs, i, nonce) ==>
      exists k :: i < k < |evs| && evs[k].now > now
  {
    NonceAcceptedIff(evs, nonce, ttlMs, now);
    forall i: nat | AcceptedAndValid(evs, i, nonce, now) && Forgotten(evs, i, nonce)
      ensures exists k :: i < k < |evs| && evs[k].now > now
    {
      var k :| i < k < |evs| && (evs[k].Add? ==> evs[k].nonce == nonce) && evs[i].now + evs[i].ttlMs <= evs[k].now;
      assert evs[k].now > now;
    }
  }

  lemma {:induction false} OverByAt(evs: seq<NonceEvent>, now: int, k: nat)
    requires NoncesOverBy(evs, now) && k < |evs|
    ensures evs[k].now <= now
    decreases |evs|
  {
    var n := |evs| - 1;
    if k < n { OverByAt(evs[..n], evs[n].now, k); }
  }

  /** Replay protection while the clock does not run backwards: `add` accepts a nonce exactly when
      no earlier accepted `add` of it is still within its time to live, whatever was purged. */
  lemma NonceAcceptedIffNotReplayed(evs: seq<NonceEvent>, nonce: string, ttlMs: int, now: int)
    requires NoncesOverBy(evs, now)
    ensures DoAdd(NonceRun(evs), nonce, ttlMs, now).0 <==> !exists i: nat :: AcceptedAndValid(evs, i, nonce, now)
  {
    NonceAcceptedIff(evs, nonce, ttlMs, now);
    forall i: nat | AcceptedAndValid(evs, i, nonce, now) ensures !Forgotten(evs, i, nonce) {
      forall k | i < k < |evs| ensures evs[k].now <= now { OverByAt(evs, now, k); }
    }
  }

  /** A clock that is set back lets a replay through. */
  lemma ReplayAfterClockSetBack(nonce: string, ttlMs: int, now: int)
    requires ttlMs > 0
    ensures var evs := [Add(nonce, ttlMs, now), Purge(now + ttlMs)];
      AcceptedAndValid(evs, 0, nonce, now) && DoAdd(NonceRun(evs), nonce, ttlMs, now).0
  {
    var evs := [Add(nonce, ttlMs, now), Purge(now + ttlMs)];
    assert evs[..1] == [Add(nonce, ttlMs, now)] && evs[..1][..0] == [] && evs[..0] == [];
    assert NonceRun(evs[..1]) == map[][nonce := now + ttlMs];
  }

  class NonceCache {
    var cache: map<string, int>
    ghost var history: seq<NonceEvent>

    ghost predicate Valid() reads this { cache == NonceRun(history) }

    constructor ()
      ensures Valid() && history == []
    {
      cache, history := map[], [];
    }

    method AddNonce(nonce: string, ttlMs: int, now: int) returns (accepted: bool)
      requires Valid()
      modifies this
      ensures Valid() && history == old(history) + [Add(nonce, ttlMs, now)]
      ensures accepted <==>
        forall i: nat :: AcceptedAndValid(old(history), i, nonce, now) ==> Forgotten(old(history), i, nonce)
      ensures NoncesOverBy(old(history), now) ==>
        (accepted <==> !exists i: nat :: AcceptedAndValid(old(history), i, nonce, now))
    {
      NonceAcceptedIff(history, nonce, ttlMs, now);
      if NoncesOverBy(history, now) { NonceAcceptedIffNotReplayed(history, nonce, ttlMs, now); }
      assert (history + [Add(nonce, ttlMs, now)])[..|history|] == history;
      history := history + [Add(nonce, ttlMs, now)];
      if nonce in cache {
        if cache[nonce] <= now {
          cache := cache - {nonce};
        } else {
          return false;
        }
      }
      cache := cache[nonce := now + ttlMs];
      return true;
    }

    method PurgeExpired(now: int)
      requires Valid()
      modifies this
      ensures Valid() && history == old(history) + [Purge(now)]
    {
      var todo := cache.Keys;
      while todo != {}
        invariant todo <= old(cache).Keys && history == old(history)
        invariant cache == map n | n in old(cache) && (n in todo || old(cache)[n] > now) :: old(cache)[n]
        decreases |todo|
      {
        var nonce :| nonce in todo;
        todo := todo - {nonce};
        if cache[nonce] <= now {
          cache := cache - {nonce};
        }
      }
      assert (history + [Purge(now)])[..|history|] == history;
      history := history + [Purge(now)];
    }
  }
}
