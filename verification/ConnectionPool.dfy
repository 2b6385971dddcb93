/** The reference-counted pool of gateway sockets (`GatewayRpcConnectionPool` in src/executor.ts).

    `acquire` awaits the connect between reading and writing the pool, so it is two steps here
    and anything may happen in between.  Pool entries are numbered in the order their connect
    finished; an entry that has left the pool lives on, with its timer, like the object in the
    source does.  A key stands for the configuration it hashes. */
module ConnectionPool {
  import opened Common

  type Key = string

  /** `open`: the socket is usable; `closed`: the pool has called `close`;
      `evictAt`: when the armed eviction timer is due. */
  datatype Entry = Entry(
    key: Key, refCount: nat, lastUsedAt: nat, evictAt: Option<nat>, open: bool, closed: bool)

  /** The pool's fields, then the history: how many callers hold each key, how many connects
      are under way for it, and when it was last acquired or released. */
  datatype State = State(
    idleTimeoutMs: nat,
    now: nat,
    destroyed: bool,
    entries: seq<Entry>,
    pool: map<Key, nat>,
    connecting: multiset<Key>,
    holders: multiset<Key>,
    touched: map<Key, nat>)

  function Init(idleTimeoutMs: nat): State {
    State(idleTimeoutMs, 0, false, [], map[], multiset{}, multiset{}, map[])
  }

  datatype Event =
    | AcquireStart(key: Key)
    | ConnectDone(key: Key, ok: bool)
    | Release(key: Key)
    | SocketDrops(entry: nat)
    | EvictionTimer(entry: nat)
    | Tick(ms: nat)
    | Destroy

  predicate PoolRefersToEntries(entries: seq<Entry>, pool: map<Key, nat>) {
    forall k :: k in pool ==> pool[k] < |entries| && entries[pool[k]].key == k
  }

  function Evict(s: State, i: nat): State
    requires i < |s.entries|
  {
    s.(entries := s.entries[i := s.entries[i].(evictAt := None, open := false, closed := true)],
       pool := s.pool - {s.entries[i].key})
  }

  predicate IsHot(s: State, k: Key) {
    k in s.pool && s.pool[k] < |s.entries| && s.entries[s.pool[k]].open
  }

  /** `acquire` up to its `await`. */
  function DoAcquireStart(s: State, k: Key): State {
    if s.destroyed then s
    else if IsHot(s, k) then
      var i := s.pool[k];
      s.(entries := s.entries[i := s.entries[i].(refCount := s.entries[i].refCount + 1, lastUsedAt := s.now)],
         holders := s.holders + multiset{k}, touched := s.touched[k := s.now])
    else
      var s' := if k in s.pool && s.pool[k] < |s.entries| then Evict(s, s.pool[k]) else s;
      s'.(connecting := s'.connecting + multiset{k})
  }

  /** The rest of a cold `acquire`; it does not look at the pool again before writing it. */
  function DoConnectDone(s: State, k: Key, ok: bool): State {
    if k !in s.connecting then s
    else
      var s' := s.(connecting := s.connecting - multiset{k});
      if !ok then s'
      else s'.(entries := s.entries + [Entry(k, 1, s.now, None, true, false)],
               pool := s.pool[k := |s.entries|],
               holders := s.holders + multiset{k}, touched := s.touched[k := s.now])
  }

  /** The entry with one reference less, its timer armed if that was the last. */
  function Returned(e: Entry, now: nat, idleTimeoutMs: nat): Entry {
    var rc := if e.refCount > 0 then e.refCount - 1 else 0;
    e.(refCount := rc, lastUsedAt := now, evictAt := if rc == 0 then Some(now + idleTimeoutMs) else e.evictAt)
  }

  /** A release by somebody who holds nothing is tolerated: neither number goes below zero. */
  function DoRelease(s: State, k: Key): State {
    var s' := s.(holders := s.holders - multiset{k});
    if s.destroyed then s'
    else if k in s.pool && s.pool[k] < |s.entries| then
      var i := s.pool[k];
      s'.(entries := s.entries[i := Returned(s.entries[i], s.now, s.idleTimeoutMs)], touched := s.touched[k := s.now])
    else s'.(touched := s.touched[k := s.now])
  }

  predicate TimerDue(s: State, i: nat) {
    i < |s.entries| && s.entries[i].evictAt.Some? && s.entries[i].evictAt.value <= s.now
  }

  function DoEvictionTimer(s: State, i: nat): State {
    if !TimerDue(s, i) then s
    else if s.entries[i].refCount == 0 then Evict(s, i)
    else s.(entries := s.entries[i := s.entries[i].(evictAt := None)])
  }

  /** Entries that left the pool are not touched. */
  function DoDestroy(s: State): State {
    if s.destroyed then s
    else
      s.(destroyed := true,
         entries := seq(|s.entries|, i requires 0 <= i < |s.entries| =>
           if s.entries[i].key in s.pool && s.pool[s.entries[i].key] == i
           then s.entries[i].(evictAt := None, open := false, closed := true) else s.entries[i]),
         pool := map[])
  }

  function Step(s: State, ev: Event): State {
    match ev
    case AcquireStart(k) => DoAcquireStart(s, k)
    case ConnectDone(k, ok) => DoConnectDone(s, k, ok)
    case Release(k) => DoRelease(s, k)
    case SocketDrops(i) => if i < |s.entries| then s.(entries := s.entries[i := s.entries[i].(open := false)]) else s
    case EvictionTimer(i) => DoEvictionTimer(s, i)
    case Tick(ms) => s.(now := s.now + ms)
    case Destroy => DoDestroy(s)
  }

  function Run(s: State, evs: seq<Event>): State
    decreases |evs|
  {
    if evs == [] then s else Run(Step(s, evs[0]), evs[1..])
  }

  // ---------------------------------------------------------------------------
  // What holds in every run
  // ---------------------------------------------------------------------------

  /** A pool entry counts at most the holders of its key; an idle one has its timer set to a
      full timeout after the key was last used. */
  ghost predicate EntryInv(s: State, k: Key)
    requires k in s.pool
  {
    var i := s.pool[k];
    && i < |s.entries| && s.entries[i].key == k && !s.entries[i].closed
    && s.entries[i].refCount <= s.holders[k]
    && k in s.touched && s.entries[i].lastUsedAt == s.touched[k] <= s.now
    && (s.entries[i].refCount == 0 ==> s.entries[i].evictAt == Some(s.touched[k] + s.idleTimeoutMs))
  }

  ghost predicate Inv(s: State) {
    !s.destroyed ==> forall k :: k in s.pool ==> EntryInv(s, k)
  }

  lemma StepKeepsInv(s: State, ev: Event)
    requires Inv(s)
    ensures Inv(Step(s, ev)) && Step(s, ev).idleTimeoutMs == s.idleTimeoutMs
  {
    var s' := Step(s, ev);
    if !s'.destroyed {
      forall k | k in s'.pool ensures EntryInv(s', k) {
        if k in s.pool { assert EntryInv(s, k); }
        match ev
        case AcquireStart(q) => AcquireKeepsEntry(s, q, k);
        case ConnectDone(q, ok) => ConnectKeepsEntry(s, q, ok, k);
        case Release(q) => ReleaseKeepsEntry(s, q, k);
        case SocketDrops(i) =>
        case EvictionTimer(i) => TimerKeepsEntry(s, i, k);
        case Tick(ms) =>
        case Destroy =>
      }
    }
  }

  lemma AcquireKeepsEntry(s: State, q: Key, k: Key)
    requires !s.destroyed && Inv(s) && k in DoAcquireStart(s, q).pool
    ensures EntryInv(DoAcquireStart(s, q), k)
  {
    assert k in s.pool && EntryInv(s, k);
    if q in s.pool { assert EntryInv(s, q); }
  }

  lemma ConnectKeepsEntry(s: State, q: Key, ok: bool, k: Key)
    requires !s.destroyed && Inv(s) && k in DoConnectDone(s, q, ok).pool
    ensures EntryInv(DoConnectDone(s, q, ok), k)
  {
    if k in s.pool { assert EntryInv(s, k); }
  }

  lemma ReleaseKeepsEntry(s: State, q: Key, k: Key)
    requires !s.destroyed && Inv(s) && k in DoRelease(s, q).pool
    ensures EntryInv(DoRelease(s, q), k)
  {
    assert k in s.pool && EntryInv(s, k);
    if q in s.pool { assert EntryInv(s, q); }
  }

  lemma TimerKeepsEntry(s: State, i: nat, k: Key)
    requires !s.destroyed && Inv(s) && k in DoEvictionTimer(s, i).pool
    ensures EntryInv(DoEvictionTimer(s, i), k)
  {
    assert k in s.pool && EntryInv(s, k);
  }

  lemma {:induction false} RunKeepsInv(s: State, evs: seq<Event>)
    requires Inv(s)
    ensures Inv(Run(s, evs)) && Run(s, evs).idleTimeoutMs == s.idleTimeoutMs
    decreases |evs|
  {
    if evs != [] {
      StepKeepsInv(s, evs[0]);
      RunKeepsInv(Step(s, evs[0]), evs[1..]);
    }
  }

  /** In every run of a live pool, however acquires overlap and sockets drop: no entry counts
      more references than its key has holders, and the timer evicts a pool entry only when
      its count is zero and the key has been idle for the whole timeout. */
  lemma CountsNeverExceedHolders(idleTimeoutMs: nat, evs: seq<Event>, k: Key)
    requires !Run(Init(idleTimeoutMs), evs).destroyed && k in Run(Init(idleTimeoutMs), evs).pool
    ensures var s := Run(Init(idleTimeoutMs), evs);
      && s.pool[k] < |s.entries| && !s.entries[s.pool[k]].closed
      && s.entries[s.pool[k]].refCount <= s.holders[k]
      && (k !in Step(s, EvictionTimer(s.pool[k])).pool <==>
            s.entries[s.pool[k]].refCount == 0 && k in s.touched && s.touched[k] + idleTimeoutMs <= s.now)
  {
    RunKeepsInv(Init(idleTimeoutMs), evs);
    var s := Run(Init(idleTimeoutMs), evs);
    assert EntryInv(s, k);
  }

  /** What an acquire does in every run of a live pool: an open pooled connection is handed out
      again, with one more reference and everything else as it was, idle or not; otherwise a dead
      one is closed and dropped, and exactly one connect starts. */
  lemma AcquireReusesOpenConnections(idleTimeoutMs: nat, evs: seq<Event>, k: Key)
    requires !Run(Init(idleTimeoutMs), evs).destroyed
    ensures var s := Run(Init(idleTimeoutMs), evs);
      var s' := Step(s, AcquireStart(k));
      && (k in s.pool ==> s.pool[k] < |s.entries|)
      && if k in s.pool && s.entries[s.pool[k]].open then
           && s'.pool == s.pool && s'.connecting == s.connecting && s'.holders == s.holders + multiset{k}
           && |s'.entries| == |s.entries| && s'.entries[s.pool[k]].open
           && s'.entries[s.pool[k]].refCount == s.entries[s.pool[k]].refCount + 1
           && forall i :: 0 <= i < |s.entries| && i != s.pool[k] ==> s'.entries[i] == s.entries[i]
         else
           && s'.connecting == s.connecting + multiset{k} && s'.holders == s.holders && k !in s'.pool
           && |s'.entries| == |s.entries| && (k in s.pool ==> s'.entries[s.pool[k]].closed)
  {
    RunKeepsInv(Init(idleTimeoutMs), evs);
    var s := Run(Init(idleTimeoutMs), evs);
    if k in s.pool { assert EntryInv(s, k); }
  }

  /** What a finished connect does: it is pooled open, with its caller as the one holder counted. */
  lemma ConnectPoolsTheConnection(s: State, k: Key, ok: bool)
    requires k in s.connecting
    ensures var s' := Step(s, ConnectDone(k, ok));
      && s'.connecting == s.connecting - multiset{k}
      && if ok then k in s'.pool && s'.pool[k] < |s'.entries| && s'.entries[s'.pool[k]].open
                    && s'.entries[s'.pool[k]].refCount == 1 && s'.holders == s.holders + multiset{k}
                    && (forall q :: q != k && q in s.pool ==> q in s'.pool && s'.pool[q] == s.pool[q])
         else s'.pool == s.pool && s'.entries == s.entries && s'.holders == s.holders
  {
  }

  // ---------------------------------------------------------------------------
  // Exact counts
  // ---------------------------------------------------------------------------

  /** The pool knows exactly who holds key `k`. */
  ghost predicate CountedFor(s: State, k: Key) {
    if k in s.pool
    then s.pool[k] < |s.entries| && s.entries[s.pool[k]].key == k && s.entries[s.pool[k]].refCount == s.holders[k]
    else s.holders[k] == 0
  }

  ghost predicate Counted(s: State) { forall k :: CountedFor(s, k) }

  /** The steps at which the code loses count: giving up a dead connection that is held, adding a
      second connection under a held key, and the leftover timer of an entry that was
      overwritten in the pool, which deletes the entry that replaced it. */
  predicate LosesCount(s: State, ev: Event) {
    match ev
    case AcquireStart(k) => k in s.pool && !IsHot(s, k) && k in s.holders
    case ConnectDone(k, ok) => ok && k in s.connecting && k in s.holders
    case EvictionTimer(i) =>
      && TimerDue(s, i) && s.entries[i].refCount == 0
      && s.entries[i].key in s.pool && s.pool[s.entries[i].key] != i && s.entries[i].key in s.holders
    case _ => false
  }

  lemma StepCounts(s: State, ev: Event, k: Key)
    requires Counted(s) && !s.destroyed && ev != Destroy && !LosesCount(s, ev)
    ensures CountedFor(Step(s, ev), k)
  {
    assert CountedFor(s, k);
    match ev
    case AcquireStart(q) => AcquireCounts(s, q, k);
    case ConnectDone(q, ok) => assert CountedFor(s, q);
    case Release(q) => ReleaseCounts(s, q, k);
    case EvictionTimer(i) => if TimerDue(s, i) { TimerCounts(s, i, k); }
    case _ =>
  }

  lemma AcquireCounts(s: State, q: Key, k: Key)
    requires Counted(s) && !s.destroyed && !LosesCount(s, AcquireStart(q))
    ensures CountedFor(DoAcquireStart(s, q), k)
  {
    assert CountedFor(s, k) && CountedFor(s, q);
  }

  lemma ReleaseCounts(s: State, q: Key, k: Key)
    requires Counted(s) && !s.destroyed
    ensures CountedFor(DoRelease(s, q), k)
  {
    assert CountedFor(s, k) && CountedFor(s, q);
  }

  lemma TimerCounts(s: State, i: nat, k: Key)
    requires Counted(s) && TimerDue(s, i) && !LosesCount(s, EvictionTimer(i))
    ensures CountedFor(DoEvictionTimer(s, i), k)
  {
    assert CountedFor(s, k) && CountedFor(s, s.entries[i].key);
  }

  /** A count that is exact stays exact through a step if and only if the step is none of those. */
  lemma CountStaysExactIff(s: State, ev: Event)
    requires Counted(s) && !s.destroyed && ev != Destroy
    ensures Counted(Step(s, ev)) <==> !LosesCount(s, ev)
  {
    if !LosesCount(s, ev) {
      forall k ensures CountedFor(Step(s, ev), k) { StepCounts(s, ev, k); }
    } else {
      var k := match ev case AcquireStart(q) => q case ConnectDone(q, _) => q case EvictionTimer(i) => s.entries[i].key;
      assert CountedFor(s, k);
      assert !CountedFor(Step(s, ev), k);
    }
  }

  /** What the callers and the network must do: cold acquires of one key do not overlap, and a
      connection does not drop while it is held. */
  predicate Disciplined(s: State, ev: Event) {
    match ev
    case AcquireStart(k) => IsHot(s, k) || k !in s.connecting
    case SocketDrops(i) => i < |s.entries| && s.entries[i].key in s.pool && s.pool[s.entries[i].key] == i
                           ==> s.entries[i].key !in s.holders
    case _ => true
  }

  predicate DisciplinedRun(s: State, evs: seq<Event>)
    decreases |evs|
  {
    evs != [] ==> Disciplined(s, evs[0]) && DisciplinedRun(Step(s, evs[0]), evs[1..])
  }

  /** Exact counts, every held connection open, at most one connect under way per key and then
      nothing pooled, and no connection outside the pool that is not closed. */
  ghost predicate ExactInv(s: State) {
    && Counted(s)
    && (forall k :: k in s.pool && k in s.holders ==> IsHot(s, k))
    && (forall k :: k in s.connecting ==> s.connecting[k] == 1 && k !in s.pool)
    && (forall i :: 0 <= i < |s.entries| && !(s.entries[i].key in s.pool && s.pool[s.entries[i].key] == i)
          ==> s.entries[i].closed && s.entries[i].evictAt == None)
  }

  lemma DisciplineKeepsCount(s: State, ev: Event)
    requires Inv(s) && ExactInv(s) && !s.destroyed && ev != Destroy && Disciplined(s, ev)
    ensures !LosesCount(s, ev)
  {
    match ev
    case AcquireStart(k) => assert CountedFor(s, k);
    case ConnectDone(k, ok) => assert CountedFor(s, k);
    case _ =>
  }

  lemma StepKeepsExact(s: State, ev: Event)
    requires Inv(s) && ExactInv(s) && !s.destroyed && ev != Destroy && Disciplined(s, ev)
    ensures ExactInv(Step(s, ev))
  {
    DisciplineKeepsCount(s, ev);
    CountStaysExactIff(s, ev);
    assert forall k :: k in s.pool ==> CountedFor(s, k);
    match ev
    case AcquireStart(k) => AcquireKeepsExact(s, k);
    case ConnectDone(k, ok) => ConnectKeepsExact(s, k, ok);
    case Release(k) => ReleaseKeepsExact(s, k);
    case SocketDrops(i) =>
    case EvictionTimer(i) => TimerKeepsExact(s, i);
    case Tick(ms) =>
  }

  lemma AcquireKeepsExact(s: State, k: Key)
    requires ExactInv(s) && !s.destroyed && Disciplined(s, AcquireStart(k)) && Counted(DoAcquireStart(s, k))
    ensures ExactInv(DoAcquireStart(s, k))
  {
    assert CountedFor(s, k);
    assert forall q :: q in s.pool ==> CountedFor(s, q);
  }

  lemma ConnectKeepsExact(s: State, k: Key, ok: bool)
    requires ExactInv(s) && !s.destroyed && Counted(DoConnectDone(s, k, ok))
    ensures ExactInv(DoConnectDone(s, k, ok))
  {
    assert forall q :: q in s.pool ==> CountedFor(s, q);
  }

  lemma ReleaseKeepsExact(s: State, k: Key)
    requires ExactInv(s) && !s.destroyed && Counted(DoRelease(s, k))
    ensures ExactInv(DoRelease(s, k))
  {
    assert forall q :: q in s.pool ==> CountedFor(s, q);
  }

  lemma TimerKeepsExact(s: State, i: nat)
    requires ExactInv(s) && !s.destroyed && Counted(DoEvictionTimer(s, i))
    ensures ExactInv(DoEvictionTimer(s, i))
  {
    assert forall q :: q in s.pool ==> CountedFor(s, q);
  }

  lemma {:induction false} RunKeepsExact(s: State, evs: seq<Event>)
    requires Inv(s) && (!s.destroyed ==> ExactInv(s)) && DisciplinedRun(s, evs)
    ensures !Run(s, evs).destroyed ==> ExactInv(Run(s, evs))
    decreases |evs|
  {
    if evs != [] {
      StepKeepsInv(s, evs[0]);
      if !s.destroyed && evs[0] != Destroy { StepKeepsExact(s, evs[0]); }
      RunKeepsExact(Step(s, evs[0]), evs[1..]);
    }
  }

  /** In every disciplined run of a live pool the reference count of a key is the number of its
      holders, held connections are open, connections outside the pool are closed, and the
      timer closes a connection only after a full idle timeout during which nobody held it. */
  lemma DisciplinedRunsCountExactly(idleTimeoutMs: nat, evs: seq<Event>, k: Key)
    requires DisciplinedRun(Init(idleTimeoutMs), evs) && !Run(Init(idleTimeoutMs), evs).destroyed
    ensures var s := Run(Init(idleTimeoutMs), evs);
      && CountedFor(s, k)
      && (k in s.pool && k in s.holders ==> IsHot(s, k))
      && (forall i :: 0 <= i < |s.entries| && !(s.entries[i].key in s.pool && s.pool[s.entries[i].key] == i)
            ==> s.entries[i].closed)
      && (forall i :: 0 <= i < |s.entries| && Step(s, EvictionTimer(i)).entries[i].closed && !s.entries[i].closed
            ==> s.entries[i].key !in s.holders && s.entries[i].key in s.touched
                && s.touched[s.entries[i].key] + idleTimeoutMs <= s.now)
  {
    var s := Run(Init(idleTimeoutMs), evs);
    RunKeepsInv(Init(idleTimeoutMs), evs);
    RunKeepsExact(Init(idleTimeoutMs), evs);
    assert CountedFor(s, k);
    forall i | 0 <= i < |s.entries| && Step(s, EvictionTimer(i)).entries[i].closed && !s.entries[i].closed
      ensures s.entries[i].key !in s.holders && s.entries[i].key in s.touched
              && s.touched[s.entries[i].key] + idleTimeoutMs <= s.now
    {
      assert EntryInv(s, s.entries[i].key) && CountedFor(s, s.entries[i].key);
    }
  }

  /** Two cold acquires of one key, both connected: the pool counts one reference for two holders. */
  function Overlapped(k: Key): State {
    var e := Entry(k, 1, 0, None, true, false);
    Init(10).(entries := [e, e], pool := map[k := 1], holders := multiset{k, k}, touched := map[k := 0])
  }

  lemma {:induction false} RunAppend(s: State, es: seq<Event>, fs: seq<Event>)
    ensures Run(s, es + fs) == Run(Run(s, es), fs)
    decreases |es|
  {
    if es == [] {
      assert es + fs == fs;
    } else {
      assert (es + fs)[1..] == es[1..] + fs;
      RunAppend(Step(s, es[0]), es[1..], fs);
    }
  }

  lemma TwoStarts(k: Key)
    ensures Run(Init(10), [AcquireStart(k), AcquireStart(k)]) == Init(10).(connecting := multiset{k, k})
  {
    var evs := [AcquireStart(k), AcquireStart(k)];
    RunAt(Init(10), evs, 0);
    RunAt(Step(Init(10), evs[0]), evs, 1);
    assert multiset{k} + multiset{k} == multiset{k, k};
  }

  /** One of the two has connected. */
  function HalfConnected(k: Key): State {
    Init(10).(connecting := multiset{k}, entries := [Entry(k, 1, 0, None, true, false)], pool := map[k := 0],
              holders := multiset{k}, touched := map[k := 0])
  }

  lemma FirstConnect(k: Key)
    ensures Step(Init(10).(connecting := multiset{k, k}), ConnectDone(k, true)) == HalfConnected(k)
  {
    assert multiset{k, k} - multiset{k} == multiset{k};
  }

  lemma SecondConnect(k: Key)
    ensures Step(HalfConnected(k), ConnectDone(k, true)) == Overlapped(k)
  {
    var e := Entry(k, 1, 0, None, true, false);
    assert [e] + [e] == [e, e] && map[k := 0][k := 1] == map[k := 1];
    assert multiset{k} - multiset{k} == multiset{} && multiset{k} + multiset{k} == multiset{k, k};
    assert map[k := 0][k := 0] == map[k := 0];
  }

  lemma TwoConnects(k: Key)
    ensures Run(Init(10).(connecting := multiset{k, k}), [ConnectDone(k, true), ConnectDone(k, true)]) == Overlapped(k)
  {
    var evs := [ConnectDone(k, true), ConnectDone(k, true)];
    FirstConnect(k);
    SecondConnect(k);
    RunAt(Init(10).(connecting := multiset{k, k}), evs, 0);
    RunAt(HalfConnected(k), evs, 1);
  }

  lemma OverlapReached(k: Key)
    ensures Run(Init(10), [AcquireStart(k), AcquireStart(k)] + [ConnectDone(k, true), ConnectDone(k, true)]) == Overlapped(k)
  {
    RunAppend(Init(10), [AcquireStart(k), AcquireStart(k)], [ConnectDone(k, true), ConnectDone(k, true)]);
    TwoStarts(k);
    TwoConnects(k);
  }

  /** Overlapping cold acquires do lose count: after one of the two callers has released, the
      timer closes a connection although the other caller still holds the key. */
  lemma OverlappingAcquiresCloseAHeldConnection(k: Key)
    ensures Run(Init(10), [AcquireStart(k), AcquireStart(k)] + [ConnectDone(k, true), ConnectDone(k, true)]) == Overlapped(k)
    ensures var s := Run(Overlapped(k), [Release(k), Tick(10), EvictionTimer(1)]);
      |s.entries| == 2 && s.holders[k] == 1 && s.entries[1].closed
  {
    OverlapReached(k);
    var evs := [Release(k), Tick(10), EvictionTimer(1)];
    var s := Overlapped(k);
    var s1 := s.(entries := [s.entries[0], Entry(k, 0, 0, Some(10), true, false)], holders := multiset{k});
    RunAt(s, evs, 0);
    assert Step(s, evs[0]) == s1;
    RunAt(s1, evs, 1);
    RunAt(Step(s1, evs[1]), evs, 2);
  }

  lemma RunAt(s: State, evs: seq<Event>, i: nat)
    requires i < |evs|
    ensures evs[0..] == evs && Run(s, evs[i..]) == Run(Step(s, evs[i]), evs[i + 1..])
  {
    assert evs[i..][1..] == evs[i + 1..];
  }

  // ---------------------------------------------------------------------------
  // Teardown
  // ---------------------------------------------------------------------------

  /** A destroyed pool with no connect under way stays empty. */
  lemma {:induction false} DestroyedPoolStaysEmpty(s: State, evs: seq<Event>)
    requires s.destroyed && s.pool == map[] && s.connecting == multiset{}
    ensures Run(s, evs).pool == map[]
    decreases |evs|
  {
    if evs != [] {
      DestroyedPoolStaysEmpty(Step(s, evs[0]), evs[1..]);
    }
  }

  /** `destroy` empties the pool for good if and only if no connect is under way: `acquire` does
      not look at `destroyed` again after its `await`, and then pools an open connection. */
  lemma DestroyIsFinalIffNothingConnects(s: State)
    requires !s.destroyed
    ensures (forall evs :: Run(Step(s, Destroy), evs).pool == map[]) <==> s.connecting == multiset{}
  {
    var s' := Step(s, Destroy);
    if s.connecting == multiset{} {
      forall evs ensures Run(s', evs).pool == map[] { DestroyedPoolStaysEmpty(s', evs); }
    } else {
      var k :| k in s.connecting;
      var evs := [ConnectDone(k, true)];
      RunAt(s', evs, 0);
      assert k in Run(s', evs).pool;
    }
  }

  // ---------------------------------------------------------------------------
  // The class
  // ---------------------------------------------------------------------------

  lemma AddedRefers(entries: seq<Entry>, pool: map<Key, nat>, e: Entry)
    requires PoolRefersToEntries(entries, pool)
    ensures PoolRefersToEntries(entries + [e], pool[e.key := |entries|])
  {
  }

  lemma UpdatedRefers(entries: seq<Entry>, pool: map<Key, nat>, i: nat, e: Entry)
    requires PoolRefersToEntries(entries, pool) && i < |entries| && entries[i].key == e.key
    ensures PoolRefersToEntries(entries[i := e], pool)
  {
  }

  class GatewayRpcConnectionPool {
    const idleTimeoutMs: nat
    var now: nat
    var destroyed: bool
    var entries: seq<Entry>
    var pool: map<Key, nat>
    var connecting: multiset<Key>
    var totalAcquires: nat
    var totalReuses: nat
    ghost var holders: multiset<Key>
    ghost var touched: map<Key, nat>

    ghost function View(): State reads this {
      State(idleTimeoutMs, now, destroyed, entries, pool, connecting, holders, touched)
    }

    ghost predicate Valid() reads this {
      PoolRefersToEntries(entries, pool) && totalReuses <= totalAcquires
    }

    constructor (idleTimeoutMs: nat)
      ensures Valid() && View() == Init(idleTimeoutMs)
    {
      this.idleTimeoutMs := idleTimeoutMs;
      now, destroyed, entries, pool, connecting := 0, false, [], map[], multiset{};
      totalAcquires, totalReuses, holders, touched := 0, 0, multiset{}, map[];
    }

    /** `acquire` up to the `await`: a hot connection is returned at once. */
    method Acquire(key: Key) returns (conn: Option<nat>)
      requires Valid()
      modifies this
      ensures Valid() && View() == DoAcquireStart(old(View()), key)
      ensures conn.Some? <==> !old(destroyed) && old(IsHot(View(), key))
      ensures conn.Some? ==> key in pool && conn.value == pool[key] && entries[conn.value].open
      ensures totalAcquires == old(totalAcquires) + if old(destroyed) then 0 else 1
      ensures totalReuses == old(totalReuses) + if conn.Some? then 1 else 0
    {
      if destroyed { return None; }
      totalAcquires := totalAcquires + 1;
      if key in pool {
        var existing := pool[key];
        if entries[existing].open {
          Reuse(existing);
          return Some(existing);
        }
        EvictConnection(existing);
      }
      connecting := connecting + multiset{key};
      return None;
    }

    /** One more reference to an open connection. */
    method Reuse(existing: nat)
      requires PoolRefersToEntries(entries, pool) && totalReuses < totalAcquires && !destroyed
      requires existing < |entries| && entries[existing].open
      requires entries[existing].key in pool && pool[entries[existing].key] == existing
      modifies this`entries, this`holders, this`touched, this`totalReuses
      ensures Valid() && View() == DoAcquireStart(old(View()), old(entries)[existing].key)
      ensures |entries| == old(|entries|) && entries[existing].open && totalReuses == old(totalReuses) + 1
    {
      var entry := entries[existing].(refCount := entries[existing].refCount + 1, lastUsedAt := now);
      UpdatedRefers(entries, pool, existing, entry);
      entries := entries[existing := entry];
      holders, touched := holders + multiset{entry.key}, touched[entry.key := now];
      totalReuses := totalReuses + 1;
    }

    /** The rest of a cold `acquire`. */
    method ConnectSettled(key: Key, ok: bool)
      requires Valid() && key in connecting
      modifies this
      ensures Valid() && View() == DoConnectDone(old(View()), key, ok)
      ensures totalAcquires == old(totalAcquires) && totalReuses == old(totalReuses)
    {
      ghost var before := View();
      connecting := connecting - multiset{key};
      if ok {
        var entry := Entry(key, 1, now, None, true, false);
        AddedRefers(entries, pool, entry);
        pool, entries := pool[key := |entries|], entries + [entry];
        holders, touched := holders + multiset{key}, touched[key := now];
        assert entries == DoConnectDone(before, key, ok).entries;
      }
    }

    method ReleaseConnection(key: Key)
      requires Valid()
      modifies this
      ensures Valid() && View() == DoRelease(old(View()), key)
      ensures totalAcquires == old(totalAcquires) && totalReuses == old(totalReuses)
    {
      ghost var before := View();
      holders := holders - multiset{key};
      if destroyed { return; }
      touched := touched[key := now];
      if key in pool {
        var i := pool[key];
        var e := ReleaseEntry(entries[i]);
        UpdatedRefers(entries, pool, i, e);
        entries := entries[i := e];
        assert entries == DoRelease(before, key).entries;
      }
    }

    /** The fields that a release sets in the pool entry. */
    method ReleaseEntry(entry: Entry) returns (e: Entry)
      ensures e == Returned(entry, now, idleTimeoutMs)
    {
      e := entry.(refCount := if entry.refCount - 1 > 0 then entry.refCount - 1 else 0, lastUsedAt := now);
      if e.refCount == 0 {
        e := e.(evictAt := Some(now + idleTimeoutMs));
      }
    }

    method OnEvictionTimer(i: nat)
      requires Valid() && TimerDue(View(), i)
      modifies this
      ensures Valid() && View() == DoEvictionTimer(old(View()), i)
      ensures totalAcquires == old(totalAcquires) && totalReuses == old(totalReuses)
    {
      if entries[i].refCount == 0 {
        EvictConnection(i);
      } else {
        entries := entries[i := entries[i].(evictAt := None)];
      }
    }

    method EvictConnection(i: nat)
      requires Valid() && i < |entries|
      modifies this`entries, this`pool
      ensures Valid() && View() == Evict(old(View()), i)
    {
      entries := entries[i := entries[i].(evictAt := None, open := false, closed := true)];
      pool := pool - {entries[i].key};
    }

    method DestroyPool()
      requires Valid()
      modifies this
      ensures Valid() && View() == DoDestroy(old(View()))
      ensures totalAcquires == old(totalAcquires) && totalReuses == old(totalReuses)
      ensures !old(destroyed) ==> forall k :: k in old(pool) ==> entries[old(pool)[k]].closed
    {
      if destroyed { return; }
      destroyed := true;
      var i := 0;
      while i < |entries|
        invariant 0 <= i <= |entries| == |old(entries)|
        invariant forall j :: 0 <= j < |entries| ==> entries[j].key == old(entries)[j].key
        invariant forall j :: 0 <= j < |entries| ==>
          entries[j] == if j < i && entries[j].key in pool && pool[entries[j].key] == j
                        then old(entries)[j].(evictAt := None, open := false, closed := true)
                        else old(entries)[j]
        modifies this`entries
      {
        if entries[i].key in pool && pool[entries[i].key] == i {
          entries := entries[i := entries[i].(evictAt := None, open := false, closed := true)];
        }
        i := i + 1;
      }
      pool := map[];
    }

    method GetStats() returns (connections: nat, idle: nat, active: nat, reuses: nat, acquires: nat)
      requires Valid()
      ensures connections == |pool| == idle + active
      ensures active == |Busy(entries, pool, pool.Keys)|
      ensures reuses == totalReuses <= acquires == totalAcquires
    {
      idle, active := CountIdle(entries, pool);
      return |pool|, idle, active, totalReuses, totalAcquires;
    }
  }

  /** The loop of `getStats`. */
  method CountIdle(entries: seq<Entry>, pool: map<Key, nat>) returns (idle: nat, active: nat)
    requires PoolRefersToEntries(entries, pool)
    ensures idle + active == |pool| && active == |Busy(entries, pool, pool.Keys)|
  {
    idle, active := 0, 0;
    var todo := pool.Keys;
    while todo != {}
      invariant todo <= pool.Keys
      invariant idle + active + |todo| == |pool.Keys|
      invariant active + |Busy(entries, pool, todo)| == |Busy(entries, pool, pool.Keys)|
      decreases |todo|
    {
      var k :| k in todo;
      OneKeyLess(entries, pool, todo, k);
      todo := todo - {k};
      if entries[pool[k]].refCount > 0 {
        active := active + 1;
      } else {
        idle := idle + 1;
      }
    }
  }

  /** Those of the given pooled keys whose connection is referenced. */
  ghost function Busy(entries: seq<Entry>, pool: map<Key, nat>, keys: set<Key>): set<Key>
    requires PoolRefersToEntries(entries, pool) && keys <= pool.Keys
  {
    set k | k in keys && entries[pool[k]].refCount > 0
  }

  lemma OneKeyLess(entries: seq<Entry>, pool: map<Key, nat>, keys: set<Key>, k: Key)
    requires PoolRefersToEntries(entries, pool) && keys <= pool.Keys && k in keys
    ensures |keys - {k}| == |keys| - 1
    ensures |Busy(entries, pool, keys)|
      == |Busy(entries, pool, keys - {k})| + if entries[pool[k]].refCount > 0 then 1 else 0
  {
    var busy := Busy(entries, pool, keys);
    assert Busy(entries, pool, keys - {k}) == busy - {k};
    assert k in busy <==> entries[pool[k]].refCount > 0;
  }
}
