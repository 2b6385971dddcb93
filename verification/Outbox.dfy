/** At-least-once delivery with back-off and dead letters (src/internal/outbox.ts).

    The relay's tick is an asynchronous loop that only lets go while `sendFn` is out.  Its steps
    are: take the batch of due entries and hand out the first, and, each time `sendFn` comes
    back, record the outcome and hand out the next.  Enqueueing, cleanup, further ticks and the
    clock run in between.  Only the relay marks entries. */
module Outbox {
  import opened Common
  import opened StableSort

  datatype Status = PendingSend | Sending | Sent | Dead

  /** `sends` and `sentAt` are history: how often the entry was handed to `sendFn`, and when last. */
  datatype Entry = Entry(
    id: nat, status: Status, retryCount: nat, nextRetryAt: real, createdAt: real, sends: nat, sentAt: real)

  datatype Config = Config(maxRetries: int, baseDelayMs: real, maxDelayMs: real)

  /** `store` keeps insertion order, like a JavaScript map.  `batch` is what is left of the
      relay's current batch, its first entry being in flight; `acked` is history: the ids for
      which `sendFn` has answered true. */
  datatype State = State(
    config: Config, now: real, store: seq<Entry>, issued: nat, isFlushing: bool, batch: seq<nat>, acked: set<nat>)

  function Init(config: Config): State { State(config, 0.0, [], 0, false, [], {}) }

  datatype Event =
    | Enqueue
    | Tick
    | SendDone(ok: bool, jitter: real)
    | Cleanup(maxAgeMs: real)
    | Elapse(ms: real)

  function Find(store: seq<Entry>, id: nat): (i: int)
    ensures -1 <= i < |store|
    ensures i >= 0 ==> store[i].id == id
    ensures i < 0 ==> forall e :: e in store ==> e.id != id
  {
    if store == [] then -1
    else if store[0].id == id then 0
    else var i := Find(store[1..], id); if i < 0 then -1 else i + 1
  }

  function MinReal(a: real, b: real): real { if a < b then a else b }

  function ExpDelay(config: Config, retryCount: nat): real { config.baseDelayMs * Pow2(retryCount) as real }

  function Delay(config: Config, retryCount: nat, jitter: real): real {
    MinReal(ExpDelay(config, retryCount) + jitter, config.maxDelayMs)
  }

  function MarkFailed(config: Config, e: Entry, now: real, jitter: real): Entry {
    var e' := e.(retryCount := e.retryCount + 1);
    if e'.retryCount >= config.maxRetries then e'.(status := Dead)
    else e'.(status := PendingSend, nextRetryAt := now + Delay(config, e'.retryCount, jitter))
  }

  predicate IsDue(e: Entry, now: real) { e.status.PendingSend? && e.nextRetryAt <= now }

  function Due(store: seq<Entry>, now: real): seq<Entry> {
    if store == [] then []
    else (if IsDue(store[0], now) then [store[0]] else []) + Due(store[1..], now)
  }

  function ByCreation(): (Entry, Entry) -> bool { (a: Entry, b: Entry) => a.createdAt < b.createdAt }

  function GetPending(s: State): seq<Entry> { Sort(Due(s.store, s.now), ByCreation()) }

  function Ids(es: seq<Entry>): seq<nat> { if es == [] then [] else [es[0].id] + Ids(es[1..]) }

  function DoEnqueue(s: State): State {
    s.(store := s.store + [Entry(s.issued, PendingSend, 0, s.now, s.now, 0, 0.0)], issued := s.issued + 1)
  }

  /** The next entry of the batch is marked and handed to `sendFn`; without one the tick is over. */
  function SendHead(s: State): State {
    if s.batch == [] then s.(isFlushing := false)
    else
      var i := Find(s.store, s.batch[0]);
      if i < 0 then s
      else s.(store := s.store[i := s.store[i].(status := Sending, sends := s.store[i].sends + 1, sentAt := s.now)])
  }

  function DoTick(s: State): State {
    if s.isFlushing then s else SendHead(s.(isFlushing := true, batch := Ids(GetPending(s))))
  }

  /** `markSent` or `markFailed` */
  function Mark(s: State, id: nat, ok: bool, jitter: real): State {
    var i := Find(s.store, id);
    if i < 0 then s
    else s.(store := s.store[i := if ok then s.store[i].(status := Sent)
                                  else MarkFailed(s.config, s.store[i], s.now, jitter)],
            acked := if ok then s.acked + {id} else s.acked)
  }

  function DoSendDone(s: State, ok: bool, jitter: real): State {
    if s.batch == [] then s
    else SendHead(Mark(s, s.batch[0], ok, jitter).(batch := s.batch[1..]))
  }

  function Kept(store: seq<Entry>, cutoff: real): seq<Entry> {
    if store == [] then []
    else (if store[0].status.Sent? && store[0].createdAt < cutoff then [] else [store[0]]) + Kept(store[1..], cutoff)
  }

  /** Jitter lies in [0, base), and time does not run backwards; other inputs are ignored. */
  function Step(s: State, ev: Event): State {
    match ev
    case Enqueue => DoEnqueue(s)
    case Tick => DoTick(s)
    case SendDone(ok, jitter) => if jitter >= 0.0 then DoSendDone(s, ok, jitter) else s
    case Cleanup(maxAgeMs) => s.(store := Kept(s.store, s.now - maxAgeMs))
    case Elapse(ms) => if ms >= 0.0 then s.(now := s.now + ms) else s
  }

  function Run(s: State, evs: seq<Event>): State
    decreases |evs|
  {
    if evs == [] then s else Run(Step(s, evs[0]), evs[1..])
  }

  // ---------------------------------------------------------------------------
  // Accounting for one entry
  // ---------------------------------------------------------------------------

  function Budget(config: Config): nat { if config.maxRetries > 1 then config.maxRetries else 1 }

  /** Sends are failures plus the one under way or the one that succeeded; the entry is dead
      exactly when its failures have used up the budget. */
  ghost predicate Accounted(config: Config, e: Entry) {
    && e.sends == e.retryCount + (if e.status.Sending? || e.status.Sent? then 1 else 0)
    && (e.status.Dead? <==> e.retryCount >= Budget(config))
    && e.retryCount <= Budget(config)
  }

  /** A send was not early, and the next one will not be before the back-off is over. */
  ghost predicate OnTime(config: Config, e: Entry, now: real) {
    && e.sentAt <= now
    && (e.status.Sending? || e.status.Sent? ==> e.nextRetryAt <= e.sentAt)
    && (e.status.PendingSend? && e.retryCount > 0 ==>
          e.nextRetryAt >= e.sentAt + MinReal(ExpDelay(config, e.retryCount), config.maxDelayMs))
  }

  lemma MarkFailedIsAccounted(config: Config, e: Entry, now: real, jitter: real)
    requires Accounted(config, e) && e.status.Sending? && OnTime(config, e, now) && jitter >= 0.0
    ensures Accounted(config, MarkFailed(config, e, now, jitter))
    ensures OnTime(config, MarkFailed(config, e, now, jitter), now)
  {
    var d := ExpDelay(config, e.retryCount + 1);
    MinMonotone(d, d + jitter, config.maxDelayMs);
  }

  /** A failed entry that still has budget waits at least the doubled delay or the maximum, and
      never more than the maximum. */
  lemma BackoffIsBounded(config: Config, e: Entry, now: real, jitter: real)
    requires jitter >= 0.0 && MarkFailed(config, e, now, jitter).status.PendingSend?
    ensures var wait := MarkFailed(config, e, now, jitter).nextRetryAt - now;
      MinReal(ExpDelay(config, e.retryCount + 1), config.maxDelayMs) <= wait <= config.maxDelayMs
  {
    var expDelay := ExpDelay(config, e.retryCount + 1);
    MinMonotone(expDelay, expDelay + jitter, config.maxDelayMs);
  }

  /** The wait after the first failure is twice the base delay, and each further failure doubles
      it, up to the maximum; jitter comes on top before the maximum is applied. */
  lemma BackoffDoubles(config: Config, e: Entry, now: real, jitter: real)
    requires 0.0 <= config.baseDelayMs && 0.0 <= config.maxDelayMs
    requires e.retryCount + 2 < config.maxRetries
    ensures var wait := MarkFailed(config, e, now, 0.0).nextRetryAt - now;
      var next := e.(retryCount := e.retryCount + 1);
      && (e.retryCount == 0 ==> wait == MinReal(2.0 * config.baseDelayMs, config.maxDelayMs))
      && MarkFailed(config, next, now, 0.0).nextRetryAt - now == MinReal(2.0 * wait, config.maxDelayMs)
      && (wait < config.maxDelayMs ==>
            MarkFailed(config, e, now, jitter).nextRetryAt - now == MinReal(wait + jitter, config.maxDelayMs))
  {
    var next := e.(retryCount := e.retryCount + 1);
    WaitIsDelay(config, e, now, 0.0);
    WaitIsDelay(config, e, now, jitter);
    WaitIsDelay(config, next, now, 0.0);
    DelayDoubles(config, e.retryCount + 1);
    if e.retryCount == 0 { DelayDoubles(config, 0); }
  }

  lemma WaitIsDelay(config: Config, e: Entry, now: real, jitter: real)
    requires e.retryCount + 1 < config.maxRetries
    ensures MarkFailed(config, e, now, jitter).nextRetryAt - now == Delay(config, e.retryCount + 1, jitter)
  {
  }

  lemma DelayDoubles(config: Config, n: nat)
    requires 0.0 <= config.baseDelayMs
    ensures ExpDelay(config, 0) == config.baseDelayMs && 0.0 <= ExpDelay(config, n)
    ensures ExpDelay(config, n + 1) == 2.0 * ExpDelay(config, n)
  {
    var b, t := config.baseDelayMs, Pow2(n) as real;
    assert Pow2(0) as real == 1.0 && b * 1.0 == b;
    assert Pow2(n + 1) as real == 2.0 * t && b * (2.0 * t) == 2.0 * (b * t);
    NonNegativeTimes(b, t);
  }

  lemma NonNegativeTimes(b: real, t: real)
    requires 0.0 <= b && 0.0 <= t
    ensures 0.0 <= b * t
  {
  }

  lemma MinMonotone(a: real, b: real, m: real)
    requires a <= b
    ensures MinReal(a, m) <= MinReal(b, m) <= m
  {
  }

  // ---------------------------------------------------------------------------
  // The invariant of every run
  // ---------------------------------------------------------------------------

  ghost predicate Ordered(es: seq<Entry>) {
    forall i, j :: 0 <= i < j < |es| ==> es[i].id < es[j].id && es[i].createdAt <= es[j].createdAt
  }

  ghost predicate StoreInv(s: State) {
    Ordered(s.store) && 0.0 <= s.now
    && forall e :: e in s.store ==>
         e.id < s.issued && 0.0 <= e.createdAt <= s.now && Accounted(s.config, e) && OnTime(s.config, e, s.now)
  }

  ghost predicate Ascending(ids: seq<nat>) {
    forall i, j :: 0 <= i < j < |ids| ==> ids[i] < ids[j]
  }

  /** Entry `id` is stored, and in flight if `inFlight`, else pending and due. */
  ghost predicate Awaits(s: State, id: nat, inFlight: bool) {
    exists e :: e in s.store && e.id == id && if inFlight then e.status.Sending? else IsDue(e, s.now)
  }

  /** What waits in the batch is stored, pending and due; what is in flight is the head of it. */
  ghost predicate BatchInv(s: State) {
    && (s.isFlushing <==> s.batch != [])
    && Ascending(s.batch)
    && (forall k :: 0 <= k < |s.batch| ==> Awaits(s, s.batch[k], k == 0))
    && (forall e :: e in s.store && e.status.Sending? ==> s.batch != [] && e.id == s.batch[0])
  }

  ghost predicate Inv(s: State) { StoreInv(s) && BatchInv(s) }

  lemma DueFacts(store: seq<Entry>, now: real)
    ensures forall e :: e in Due(store, now) <==> e in store && IsDue(e, now)
  {
  }

  lemma {:induction false} DueCounts(store: seq<Entry>, now: real)
    ensures forall e ::
      multiset(Due(store, now))[e] == (if e.status == PendingSend && e.nextRetryAt <= now then multiset(store)[e] else 0)
  {
    if store != [] {
      DueCounts(store[1..], now);
      assert store == [store[0]] + store[1..];
    }
  }

  lemma OrderedTail(es: seq<Entry>)
    requires Ordered(es) && es != []
    ensures Ordered(es[1..]) && forall e :: e in es[1..] ==> es[0].id < e.id && es[0].createdAt <= e.createdAt
  {
  }

  lemma OrderedCons(e: Entry, es: seq<Entry>)
    requires Ordered(es) && forall d :: d in es ==> e.id < d.id && e.createdAt <= d.createdAt
    ensures Ordered([e] + es)
  {
  }

  lemma DueKeepsOrder(store: seq<Entry>, now: real)
    requires Ordered(store)
    ensures Ordered(Due(store, now))
  {
    if store != [] {
      OrderedTail(store);
      DueKeepsOrder(store[1..], now);
      DueFacts(store[1..], now);
      OrderedCons(store[0], Due(store[1..], now));
    }
  }

  /** The sort in `getPending` never reorders anything: due entries come out in the order they
      were enqueued. */
  lemma PendingIsInEnqueueOrder(s: State)
    requires StoreInv(s)
    ensures GetPending(s) == Due(s.store, s.now) && Ordered(GetPending(s))
  {
    var due := Due(s.store, s.now);
    DueKeepsOrder(s.store, s.now);
    assert forall i, j :: 0 <= i < j < |due| ==> due[i].createdAt <= due[j].createdAt;
    assert Sorted(due, ByCreation());
    SortedIsFixed(due, ByCreation());
  }

  lemma IdsFacts(es: seq<Entry>)
    ensures |Ids(es)| == |es| && forall i :: 0 <= i < |es| ==> Ids(es)[i] == es[i].id
  {
  }

  lemma KeptFacts(store: seq<Entry>, cutoff: real)
    requires Ordered(store)
    ensures Ordered(Kept(store, cutoff))
    ensures forall e :: e in Kept(store, cutoff) <==> e in store && !(e.status.Sent? && e.createdAt < cutoff)
  {
    if store != [] {
      OrderedTail(store);
      KeptFacts(store[1..], cutoff);
      OrderedCons(store[0], Kept(store[1..], cutoff));
    }
  }

  /** Updating one entry in place. */
  lemma UpdateFacts(store: seq<Entry>, i: nat, e: Entry)
    requires Ordered(store) && i < |store| && e.id == store[i].id && e.createdAt == store[i].createdAt
    ensures Ordered(store[i := e])
    ensures forall d :: d in store[i := e] <==> d == e || (d in store && d.id != e.id)
  {
    var s' := store[i := e];
    forall d | d in store && d.id != e.id ensures d in s' {
      var j :| 0 <= j < |store| && store[j] == d;
      assert s'[j] == d;
    }
    assert s'[i] == e;
  }

  lemma OneEntryPerId(store: seq<Entry>)
    requires Ordered(store)
    ensures forall a, b :: a in store && b in store && a.id == b.id ==> a == b
  {
  }

  /** Between two sends: everything in the batch is pending and due, nothing is in flight. */
  ghost predicate ReadyToSend(s: State) {
    && StoreInv(s) && s.isFlushing && Ascending(s.batch)
    && (forall k :: 0 <= k < |s.batch| ==> Awaits(s, s.batch[k], false))
    && (forall e :: e in s.store ==> !e.status.Sending?)
  }

  lemma SendHeadKeepsInv(s: State)
    requires ReadyToSend(s)
    ensures Inv(SendHead(s))
  {
    if s.batch != [] {
      assert Awaits(s, s.batch[0], false);
      var i := Find(s.store, s.batch[0]);
      OneEntryPerId(s.store);
      var e := s.store[i];
      var e' := e.(status := Sending, sends := e.sends + 1, sentAt := s.now);
      var s' := SendHead(s);
      UpdateFacts(s.store, i, e');
      assert s'.store == s.store[i := e'];
      forall k | 0 <= k < |s'.batch| ensures Awaits(s', s'.batch[k], k == 0) {
        assert Awaits(s, s.batch[k], false);
        if k == 0 { assert e' in s'.store; }
      }
    }
  }

  lemma TickKeepsInv(s: State)
    requires Inv(s)
    ensures Inv(DoTick(s))
  {
    if !s.isFlushing {
      var due := GetPending(s);
      PendingIsInEnqueueOrder(s);
      DueFacts(s.store, s.now);
      IdsFacts(due);
      var s1 := s.(isFlushing := true, batch := Ids(due));
      forall k | 0 <= k < |s1.batch| ensures Awaits(s1, s1.batch[k], false) {
        assert due[k] in due;
      }
      SendHeadKeepsInv(s1);
    }
  }

  /** The entry in flight, settled. */
  function Settled(s: State, e: Entry, ok: bool, jitter: real): Entry {
    if ok then e.(status := Sent) else MarkFailed(s.config, e, s.now, jitter)
  }

  lemma MarkUpdatesTheHead(s: State, ok: bool, jitter: real) returns (e: Entry)
    requires Inv(s) && s.batch != [] && jitter >= 0.0
    ensures e in s.store && e.id == s.batch[0] && e.status.Sending?
    ensures Accounted(s.config, Settled(s, e, ok, jitter)) && OnTime(s.config, Settled(s, e, ok, jitter), s.now)
    ensures var s' := Mark(s, s.batch[0], ok, jitter);
      && Ordered(s'.store)
      && s' == s.(store := s'.store, acked := if ok then s.acked + {e.id} else s.acked)
      && forall d :: d in s'.store <==> d == Settled(s, e, ok, jitter) || (d in s.store && d.id != e.id)
  {
    assert Awaits(s, s.batch[0], true);
    OneEntryPerId(s.store);
    var i := Find(s.store, s.batch[0]);
    e := s.store[i];
    assert e in s.store;
    UpdateFacts(s.store, i, Settled(s, e, ok, jitter));
    if !ok { MarkFailedIsAccounted(s.config, e, s.now, jitter); }
  }

  lemma MarkedIsReady(s: State, ok: bool, jitter: real)
    requires Inv(s) && s.batch != [] && jitter >= 0.0
    ensures ReadyToSend(Mark(s, s.batch[0], ok, jitter).(batch := s.batch[1..]))
  {
    var e := MarkUpdatesTheHead(s, ok, jitter);
    var s1 := Mark(s, s.batch[0], ok, jitter).(batch := s.batch[1..]);
    forall k | 0 <= k < |s1.batch| ensures Awaits(s1, s1.batch[k], false) {
      assert Awaits(s, s.batch[k + 1], false);
      var d :| d in s.store && d.id == s.batch[k + 1] && IsDue(d, s.now);
      assert d in s1.store;
    }
  }

  lemma SendDoneKeepsInv(s: State, ok: bool, jitter: real)
    requires Inv(s) && jitter >= 0.0
    ensures Inv(DoSendDone(s, ok, jitter))
  {
    if s.batch != [] {
      MarkedIsReady(s, ok, jitter);
      SendHeadKeepsInv(Mark(s, s.batch[0], ok, jitter).(batch := s.batch[1..]));
    }
  }

  lemma AwaitsSurvives(s: State, s': State)
    requires BatchInv(s) && s'.batch == s.batch && s.now <= s'.now
    requires forall e :: e in s.store && !e.status.Sent? ==> e in s'.store
    ensures forall k :: 0 <= k < |s'.batch| ==> Awaits(s', s'.batch[k], k == 0)
  {
    forall k | 0 <= k < |s'.batch| ensures Awaits(s', s'.batch[k], k == 0) {
      assert Awaits(s, s.batch[k], k == 0);
      var e :| e in s.store && e.id == s.batch[k] && if k == 0 then e.status.Sending? else IsDue(e, s.now);
      assert e in s'.store;
    }
  }

  lemma EnqueueKeepsInv(s: State)
    requires Inv(s)
    ensures Inv(DoEnqueue(s))
  {
    var s' := DoEnqueue(s);
    assert forall e :: e in s'.store <==> e in s.store || e == s'.store[|s.store|];
    AwaitsSurvives(s, s');
  }

  lemma CleanupKeepsInv(s: State, maxAgeMs: real)
    requires Inv(s)
    ensures Inv(Step(s, Cleanup(maxAgeMs)))
  {
    KeptFacts(s.store, s.now - maxAgeMs);
    AwaitsSurvives(s, Step(s, Cleanup(maxAgeMs)));
  }

  lemma StepKeepsInv(s: State, ev: Event)
    requires Inv(s)
    ensures Inv(Step(s, ev)) && Step(s, ev).config == s.config && s.now <= Step(s, ev).now
  {
    match ev
    case Enqueue => EnqueueKeepsInv(s);
    case Tick => TickKeepsInv(s);
    case SendDone(ok, jitter) => if jitter >= 0.0 { SendDoneKeepsInv(s, ok, jitter); }
    case Cleanup(maxAgeMs) => CleanupKeepsInv(s, maxAgeMs);
    case Elapse(ms) => if ms >= 0.0 { AwaitsSurvives(s, Step(s, ev)); }
  }

  lemma {:induction false} RunKeepsInv(s: State, evs: seq<Event>)
    requires Inv(s)
    ensures Inv(Run(s, evs)) && Run(s, evs).config == s.config
    decreases |evs|
  {
    if evs != [] {
      StepKeepsInv(s, evs[0]);
      RunKeepsInv(Step(s, evs[0]), evs[1..]);
    }
  }

  // ---------------------------------------------------------------------------
  // Whole runs
  // ---------------------------------------------------------------------------

  lemma InitInv(config: Config)
    ensures Inv(Init(config))
  {
  }

  /** Whatever happens in whatever order: an entry is handed to `sendFn` at most
      `max(1, maxRetries)` times, its retry count is the number of failed sends, it is dead
      exactly when those have used up the retries, and no send was early. */
  lemma RetriesAreAccounted(config: Config, evs: seq<Event>, e: Entry)
    requires e in Run(Init(config), evs).store
    ensures e.sends <= Budget(config)
    ensures e.sends == e.retryCount + (if e.status.Sending? || e.status.Sent? then 1 else 0)
    ensures e.status.Dead? <==> e.retryCount >= Budget(config)
    ensures e.status.Sending? || e.status.Sent? ==> e.nextRetryAt <= e.sentAt
    ensures e.status.PendingSend? && e.retryCount > 0 ==>
      e.nextRetryAt >= e.sentAt + MinReal(ExpDelay(config, e.retryCount), config.maxDelayMs)
  {
    InitInv(config);
    RunKeepsInv(Init(config), evs);
  }

  /** At most one entry is in flight, whether ticks overlap or not. */
  lemma OneInFlight(config: Config, evs: seq<Event>, a: Entry, b: Entry)
    requires a in Run(Init(config), evs).store && b in Run(Init(config), evs).store
    requires a.status.Sending? && b.status.Sending?
    ensures a == b
  {
    InitInv(config);
    RunKeepsInv(Init(config), evs);
    OneEntryPerId(Run(Init(config), evs).store);
  }

  ghost predicate IsStored(s: State, id: nat) { exists e :: e in s.store && e.id == id }

  ghost predicate NothingLost(s: State) {
    && (forall id: nat :: id < s.issued ==> IsStored(s, id) || id in s.acked)
    && (forall e :: e in s.store ==> (e.status.Sent? <==> e.id in s.acked))
    && (forall id :: id in s.acked ==> id < s.issued)
  }

  lemma SendHeadLosesNothing(s: State)
    requires ReadyToSend(s) && NothingLost(s)
    ensures NothingLost(SendHead(s))
  {
    if s.batch != [] {
      assert Awaits(s, s.batch[0], false);
      OneEntryPerId(s.store);
      var i := Find(s.store, s.batch[0]);
      var e' := s.store[i].(status := Sending, sends := s.store[i].sends + 1, sentAt := s.now);
      UpdateFacts(s.store, i, e');
      UpdateStores(s, SendHead(s), e');
      assert s.store[i] in s.store;
    }
  }

  lemma UpdateStores(s: State, s': State, e: Entry)
    requires forall d :: d in s'.store <==> d == e || (d in s.store && d.id != e.id)
    ensures forall id :: IsStored(s, id) ==> IsStored(s', id)
  {
    forall id | IsStored(s, id) ensures IsStored(s', id) {
      var d :| d in s.store && d.id == id;
      if id == e.id { assert e in s'.store; } else { assert d in s'.store; }
    }
  }

  lemma MarkLosesNothing(s: State, ok: bool, jitter: real)
    requires Inv(s) && NothingLost(s) && s.batch != [] && jitter >= 0.0
    ensures NothingLost(Mark(s, s.batch[0], ok, jitter))
  {
    var e := MarkUpdatesTheHead(s, ok, jitter);
    var e' := Settled(s, e, ok, jitter);
    UpdateStores(s, Mark(s, s.batch[0], ok, jitter), e');
    assert e.id !in s.acked && e'.id == e.id && (e'.status.Sent? <==> ok);
  }

  lemma SendDoneLosesNothing(s: State, ok: bool, jitter: real)
    requires Inv(s) && NothingLost(s) && s.batch != [] && jitter >= 0.0
    ensures NothingLost(DoSendDone(s, ok, jitter))
  {
    MarkLosesNothing(s, ok, jitter);
    MarkedIsReady(s, ok, jitter);
    var s0 := Mark(s, s.batch[0], ok, jitter);
    var s1 := s0.(batch := s.batch[1..]);
    assert forall id :: IsStored(s1, id) == IsStored(s0, id);
    SendHeadLosesNothing(s1);
  }

  lemma TickLosesNothing(s: State)
    requires Inv(s) && NothingLost(s) && !s.isFlushing
    ensures NothingLost(DoTick(s))
  {
    var due := GetPending(s);
    PendingIsInEnqueueOrder(s);
    DueFacts(s.store, s.now);
    IdsFacts(due);
    var s1 := s.(isFlushing := true, batch := Ids(due));
    forall k | 0 <= k < |s1.batch| ensures Awaits(s1, s1.batch[k], false) { assert due[k] in due; }
    assert forall id :: IsStored(s1, id) == IsStored(s, id);
    SendHeadLosesNothing(s1);
  }

  lemma StepLosesNothing(s: State, ev: Event)
    requires Inv(s) && NothingLost(s)
    ensures NothingLost(Step(s, ev))
  {
    var s' := Step(s, ev);
    match ev
    case Tick => if !s.isFlushing { TickLosesNothing(s); }
    case SendDone(ok, jitter) => if jitter >= 0.0 && s.batch != [] { SendDoneLosesNothing(s, ok, jitter); }
    case Enqueue =>
      assert forall e :: e in s'.store <==> e in s.store || e == s'.store[|s.store|];
      assert IsStored(s', s.issued) by { assert s'.store[|s.store|].id == s.issued; }
      forall id | IsStored(s, id) ensures IsStored(s', id) { var e :| e in s.store && e.id == id; assert e in s'.store; }
    case Cleanup(maxAgeMs) =>
      KeptFacts(s.store, s.now - maxAgeMs);
      forall id: nat | id < s.issued ensures IsStored(s', id) || id in s'.acked {
        if id !in s.acked {
          var e :| e in s.store && e.id == id;
          assert e in s'.store;
        }
      }
    case Elapse(_) => assert forall id :: IsStored(s', id) == IsStored(s, id);
  }

  lemma {:induction false} RunLosesNothing(s: State, evs: seq<Event>)
    requires Inv(s) && NothingLost(s)
    ensures NothingLost(Run(s, evs))
    decreases |evs|
  {
    if evs != [] {
      StepKeepsInv(s, evs[0]);
      StepLosesNothing(s, evs[0]);
      RunLosesNothing(Step(s, evs[0]), evs[1..]);
    }
  }

  /** Every enqueued message is still stored until it has been acknowledged: cleanup, dead
      letters and overlapping ticks never lose one. */
  lemma UndeliveredIsNeverLost(config: Config, evs: seq<Event>, id: nat)
    requires id < Run(Init(config), evs).issued && id !in Run(Init(config), evs).acked
    ensures exists e :: e in Run(Init(config), evs).store && e.id == id && !e.status.Sent?
  {
    InitInv(config);
    RunLosesNothing(Init(config), evs);
    var e :| e in Run(Init(config), evs).store && e.id == id;
  }

  // ---------------------------------------------------------------------------
  // What is sent, and when
  // ---------------------------------------------------------------------------

  ghost predicate IsDueId(s: State, id: nat) {
    exists e :: e in s.store && e.id == id && e.status == PendingSend && e.nextRetryAt <= s.now
  }

  /** A tick while nothing is being flushed takes exactly the entries that are pending and whose
      time has come, in the order they were enqueued. */
  lemma TickTakesWhatIsDue(s: State)
    requires Inv(s) && !s.isFlushing
    ensures Ascending(Step(s, Tick).batch)
    ensures forall id :: id in Step(s, Tick).batch <==> IsDueId(s, id)
  {
    PendingIsInEnqueueOrder(s);
    IdsFacts(Due(s.store, s.now));
    assert Step(s, Tick).batch == Ids(Due(s.store, s.now));
    forall id: nat ensures id in Ids(Due(s.store, s.now)) <==> IsDueId(s, id) { DueIds(s, id); }
  }

  lemma DueIds(s: State, id: nat)
    ensures id in Ids(Due(s.store, s.now)) <==> IsDueId(s, id)
  {
    var due := Due(s.store, s.now);
    DueFacts(s.store, s.now);
    IdsFacts(due);
    if id in Ids(due) {
      var i :| 0 <= i < |due| && Ids(due)[i] == id;
      assert due[i] in due;
    }
    if IsDueId(s, id) {
      var e :| e in s.store && e.id == id && e.status == PendingSend && e.nextRetryAt <= s.now;
      var i :| 0 <= i < |due| && due[i] == e;
      assert Ids(due)[i] == id;
    }
  }

  /** No tick starts a flush at or after time `at`. */
  predicate NoFlushFrom(s: State, evs: seq<Event>, at: real)
    decreases |evs|
  {
    evs != [] ==>
      && !(evs[0].Tick? && !s.isFlushing && s.now >= at)
      && NoFlushFrom(Step(s, evs[0]), evs[1..], at)
  }

  ghost predicate IsWaiting(s: State, e: Entry) { e in s.store && e.status == PendingSend && e.id !in s.batch }

  lemma SendHeadLeavesOthers(s: State, e: Entry)
    requires StoreInv(s) && IsWaiting(s, e)
    ensures e in SendHead(s).store && SendHead(s).batch == s.batch
  {
    if s.batch != [] {
      var i := Find(s.store, s.batch[0]);
      if i >= 0 {
        UpdateFacts(s.store, i, s.store[i].(status := Sending, sends := s.store[i].sends + 1, sentAt := s.now));
      }
    }
  }

  lemma StaysWaiting(s: State, ev: Event, e: Entry)
    requires Inv(s) && IsWaiting(s, e) && !(ev.Tick? && !s.isFlushing && s.now >= e.nextRetryAt)
    ensures IsWaiting(Step(s, ev), e)
  {
    match ev
    case Enqueue =>
    case Elapse(ms) =>
    case Cleanup(maxAgeMs) => KeptFacts(s.store, s.now - maxAgeMs);
    case Tick =>
      if !s.isFlushing {
        TickTakesWhatIsDue(s);
        OneEntryPerId(s.store);
        SendHeadLeavesOthers(s.(isFlushing := true, batch := Ids(GetPending(s))), e);
      }
    case SendDone(ok, jitter) =>
      if jitter >= 0.0 && s.batch != [] {
        var d := MarkUpdatesTheHead(s, ok, jitter);
        MarkedIsReady(s, ok, jitter);
        var s1 := Mark(s, s.batch[0], ok, jitter).(batch := s.batch[1..]);
        assert e.id != s.batch[0] && e in s1.store;
        SendHeadLeavesOthers(s1, e);
      }
  }

  lemma {:induction false} StaysWaitingInRun(s: State, evs: seq<Event>, e: Entry)
    requires Inv(s) && IsWaiting(s, e) && NoFlushFrom(s, evs, e.nextRetryAt)
    ensures IsWaiting(Run(s, evs), e)
    decreases |evs|
  {
    if evs != [] {
      StepKeepsInv(s, evs[0]);
      StaysWaiting(s, evs[0], e);
      StaysWaitingInRun(Step(s, evs[0]), evs[1..], e);
    }
  }

  /** In every run a waiting entry, new or failed before, is left alone until the first tick at or
      after its time that finds no flush under way, and that one takes it. */
  lemma SentAtFirstDueTick(config: Config, earlier: seq<Event>, evs: seq<Event>, e: Entry)
    requires IsWaiting(Run(Init(config), earlier), e)
    requires NoFlushFrom(Run(Init(config), earlier), evs, e.nextRetryAt)
    requires !Run(Run(Init(config), earlier), evs).isFlushing
    requires Run(Run(Init(config), earlier), evs).now >= e.nextRetryAt
    ensures e in Run(Run(Init(config), earlier), evs).store
    ensures e.id in Step(Run(Run(Init(config), earlier), evs), Tick).batch
  {
    InitInv(config);
    var s := Run(Init(config), earlier);
    RunKeepsInv(Init(config), earlier);
    RunKeepsInv(s, evs);
    StaysWaitingInRun(s, evs, e);
    TickTakesWhatIsDue(Run(s, evs));
  }

  /** Which entries are waiting: a new one from the start, and a failed one that has retries left
      from the moment `sendFn` came back on. */
  lemma NewAndFailedEntriesWait(s: State, jitter: real)
    requires Inv(s) && jitter >= 0.0
    ensures exists e :: IsWaiting(Step(s, Enqueue), e) && e.id == s.issued && e.nextRetryAt == s.now
    ensures forall e :: e in s.store && s.batch != [] && e.id == s.batch[0] && e.retryCount + 1 < s.config.maxRetries ==>
      exists d :: IsWaiting(Step(s, SendDone(false, jitter)), d) && d.id == e.id && d.retryCount == e.retryCount + 1
                  && d.nextRetryAt <= s.now + s.config.maxDelayMs
  {
    EnqueuedWaits(s);
    forall e | e in s.store && s.batch != [] && e.id == s.batch[0] && e.retryCount + 1 < s.config.maxRetries
      ensures exists d :: IsWaiting(Step(s, SendDone(false, jitter)), d) && d.id == e.id && d.retryCount == e.retryCount + 1
                  && d.nextRetryAt <= s.now + s.config.maxDelayMs
    {
      FailedWaits(s, jitter, e);
    }
  }

  lemma EnqueuedWaits(s: State)
    requires Inv(s)
    ensures exists e :: IsWaiting(Step(s, Enqueue), e) && e.id == s.issued && e.nextRetryAt == s.now
  {
    var s' := Step(s, Enqueue);
    var e := s'.store[|s.store|];
    assert e in s'.store;
    forall k | 0 <= k < |s.batch| ensures s.batch[k] != s.issued { assert Awaits(s, s.batch[k], k == 0); }
    assert IsWaiting(s', e);
  }

  lemma FailedWaits(s: State, jitter: real, e: Entry)
    requires Inv(s) && jitter >= 0.0 && e in s.store && s.batch != [] && e.id == s.batch[0]
    requires e.retryCount + 1 < s.config.maxRetries
    ensures exists d :: IsWaiting(Step(s, SendDone(false, jitter)), d) && d.id == e.id && d.retryCount == e.retryCount + 1
              && d.nextRetryAt <= s.now + s.config.maxDelayMs
  {
    var h := MarkUpdatesTheHead(s, false, jitter);
    OneEntryPerId(s.store);
    assert h == e;
    MarkedIsReady(s, false, jitter);
    var s1 := Mark(s, s.batch[0], false, jitter).(batch := s.batch[1..]);
    var d := Settled(s, e, false, jitter);
    BackoffIsBounded(s.config, e, s.now, jitter);
    assert d in s1.store;
    SendHeadLeavesOthers(s1, d);
    assert IsWaiting(Step(s, SendDone(false, jitter)), d);
  }

  /** Cleanup removes exactly the delivered entries that are older than the given age. */
  lemma CleanupRemovesExactly(s: State, maxAgeMs: real, e: Entry)
    requires Inv(s)
    ensures e in Step(s, Cleanup(maxAgeMs)).store <==> e in s.store && !(e.status == Sent && s.now - e.createdAt > maxAgeMs)
  {
    KeptFacts(s.store, s.now - maxAgeMs);
  }

  // ---------------------------------------------------------------------------
  // Acknowledgements and failures, counted from the events
  // ---------------------------------------------------------------------------

  /** `sendFn` comes back for entry `id`. */
  predicate ComesBack(s: State, ev: Event, id: nat, ok: bool) {
    ev.SendDone? && ev.ok == ok && ev.jitter >= 0.0 && s.batch != [] && s.batch[0] == id
  }

  /** How often `sendFn` has come back for entry `id` with this answer. */
  function Answers(config: Config, evs: seq<Event>, id: nat, ok: bool): nat {
    if evs == [] then 0
    else
      var init, last := evs[..|evs| - 1], evs[|evs| - 1];
      Answers(config, init, id, ok) + if ComesBack(Run(Init(config), init), last, id, ok) then 1 else 0
  }

  lemma {:induction false} RunSnoc(s: State, evs: seq<Event>, ev: Event)
    ensures Run(s, evs + [ev]) == Step(Run(s, evs), ev)
    decreases |evs|
  {
    if evs == [] {
      assert [] + [ev] == [ev] && [ev][1..] == [];
    } else {
      assert (evs + [ev])[0] == evs[0] && (evs + [ev])[1..] == evs[1..] + [ev];
      RunSnoc(Step(s, evs[0]), evs[1..], ev);
    }
  }

  /** The counts that entry `d` shows after one more step. */
  ghost predicate CameFrom(s: State, ev: Event, d: Entry) {
    || (d.id == s.issued && d.retryCount == 0 && d.status == PendingSend)
    || exists e :: e in s.store && e.id == d.id
         && d.retryCount == e.retryCount + (if ComesBack(s, ev, d.id, false) then 1 else 0)
         && (d.status.Sent? <==> e.status.Sent? || ComesBack(s, ev, d.id, true))
  }

  lemma SendHeadKeepsCounts(s: State, d: Entry) returns (e: Entry)
    requires ReadyToSend(s) && d in SendHead(s).store
    ensures e in s.store && e.id == d.id && e.retryCount == d.retryCount && (d.status.Sent? <==> e.status.Sent?)
  {
    e := d;
    if s.batch != [] {
      assert Awaits(s, s.batch[0], false);
      OneEntryPerId(s.store);
      var i := Find(s.store, s.batch[0]);
      var h := s.store[i].(status := Sending, sends := s.store[i].sends + 1, sentAt := s.now);
      UpdateFacts(s.store, i, h);
      if d == h { e := s.store[i]; }
    }
  }

  lemma StepCounts(s: State, ev: Event, d: Entry)
    requires Inv(s) && d in Step(s, ev).store
    ensures CameFrom(s, ev, d)
  {
    match ev
    case Enqueue =>
    case Elapse(ms) =>
    case Cleanup(maxAgeMs) => KeptFacts(s.store, s.now - maxAgeMs);
    case Tick => TickCounts(s, d);
    case SendDone(ok, jitter) => if jitter >= 0.0 && s.batch != [] { SendDoneCounts(s, ok, jitter, d); }
  }

  lemma TickCounts(s: State, d: Entry)
    requires Inv(s) && d in DoTick(s).store
    ensures CameFrom(s, Tick, d)
  {
    if !s.isFlushing {
      TickIsReady(s);
      var e := SendHeadKeepsCounts(s.(isFlushing := true, batch := Ids(GetPending(s))), d);
    }
  }

  lemma SendDoneCounts(s: State, ok: bool, jitter: real, d: Entry)
    requires Inv(s) && jitter >= 0.0 && s.batch != [] && d in DoSendDone(s, ok, jitter).store
    ensures CameFrom(s, SendDone(ok, jitter), d)
  {
    var h := MarkUpdatesTheHead(s, ok, jitter);
    MarkedIsReady(s, ok, jitter);
    var e := SendHeadKeepsCounts(Mark(s, s.batch[0], ok, jitter).(batch := s.batch[1..]), d);
    var h' := Settled(s, h, ok, jitter);
    assert h'.id == h.id && h'.retryCount == h.retryCount + (if ok then 0 else 1) && (h'.status.Sent? <==> ok);
    if e == h' {
      assert h in s.store && !h.status.Sent?;
    } else {
      assert e in s.store && e.id != s.batch[0];
    }
  }

  lemma TickIsReady(s: State)
    requires Inv(s) && !s.isFlushing
    ensures ReadyToSend(s.(isFlushing := true, batch := Ids(GetPending(s))))
  {
    var due := GetPending(s);
    PendingIsInEnqueueOrder(s);
    DueFacts(s.store, s.now);
    IdsFacts(due);
    var s1 := s.(isFlushing := true, batch := Ids(due));
    forall k | 0 <= k < |s1.batch| ensures Awaits(s1, s1.batch[k], false) { assert due[k] in due; }
  }

  lemma {:induction false} NoAnswerBeforeEnqueue(config: Config, evs: seq<Event>, id: nat, ok: bool)
    requires id >= Run(Init(config), evs).issued
    ensures Answers(config, evs, id, ok) == 0
    decreases |evs|
  {
    if evs != [] {
      var init, last := evs[..|evs| - 1], evs[|evs| - 1];
      assert evs == init + [last];
      RunSnoc(Init(config), init, last);
      InitInv(config);
      RunKeepsInv(Init(config), init);
      var s := Run(Init(config), init);
      IssuedGrows(s, last);
      NoAnswerBeforeEnqueue(config, init, id, ok);
      if s.batch != [] { assert Awaits(s, s.batch[0], true); }
    }
  }

  lemma IssuedGrows(s: State, ev: Event)
    ensures s.issued <= Step(s, ev).issued
  {
  }

  /** In every run an entry's retry count is the number of times `sendFn` failed for it, and it is
      marked as sent exactly if `sendFn` has succeeded for it. */
  lemma {:induction false} CountsComeFromTheEvents(config: Config, evs: seq<Event>, d: Entry)
    requires d in Run(Init(config), evs).store
    ensures d.retryCount == Answers(config, evs, d.id, false)
    ensures d.status.Sent? <==> Answers(config, evs, d.id, true) > 0
    decreases |evs|
  {
    if evs != [] {
      var init, last := evs[..|evs| - 1], evs[|evs| - 1];
      assert evs == init + [last];
      RunSnoc(Init(config), init, last);
      InitInv(config);
      RunKeepsInv(Init(config), init);
      var s := Run(Init(config), init);
      StepCounts(s, last, d);
      if e :| e in s.store && e.id == d.id
              && d.retryCount == e.retryCount + (if ComesBack(s, last, d.id, false) then 1 else 0)
              && (d.status.Sent? <==> e.status.Sent? || ComesBack(s, last, d.id, true)) {
        CountsComeFromTheEvents(config, init, e);
      } else {
        NoAnswerBeforeEnqueue(config, init, d.id, true);
        NoAnswerBeforeEnqueue(config, init, d.id, false);
        if s.batch != [] { assert Awaits(s, s.batch[0], true); }
      }
    }
  }

  // ---------------------------------------------------------------------------
  // The class
  // ---------------------------------------------------------------------------

  class OutboxRelay {
    const config: Config
    var now: real
    var store: seq<Entry>
    var issued: nat
    var isFlushing: bool
    var batch: seq<nat>
    ghost var acked: set<nat>

    ghost function View(): State reads this { State(config, now, store, issued, isFlushing, batch, acked) }

    constructor (config: Config)
      ensures View() == Init(config)
    {
      this.config := config;
      now, store, issued, isFlushing, batch, acked := 0.0, [], 0, false, [], {};
    }

    method EnqueueMessage() returns (id: nat)
      modifies this
      ensures View() == Step(old(View()), Enqueue) && id == old(issued)
    {
      id := issued;
      store := store + [Entry(id, PendingSend, 0, now, now, 0, 0.0)];
      issued := issued + 1;
    }

    /** Exactly the stored entries that are pending and whose time has come, each as often as it
        is stored. */
    method CollectPending() returns (entries: seq<Entry>)
      ensures entries == GetPending(View())
      ensures forall e ::
        multiset(entries)[e] == (if e.status == PendingSend && e.nextRetryAt <= now then multiset(store)[e] else 0)
    {
      entries := [];
      ghost var all, rest := Due(store, now), Due(store, now);
      assert store[0..] == store;
      for i := 0 to |store|
        invariant rest == Due(store[i..], now) && entries + rest == all
      {
        var entry := store[i];
        assert store[i..][1..] == store[i + 1..];
        rest := Due(store[i + 1..], now);
        if entry.status == PendingSend && entry.nextRetryAt <= now {
          AppendOne(entries, entry, rest);
          entries := entries + [entry];
        }
      }
      assert store[|store|..] == [] && entries + [] == entries;
      DueCounts(store, now);
      SortPermutes(entries, ByCreation());
      entries := Sort(entries, ByCreation());
    }

    method MarkSent(id: nat)
      modifies this`store, this`acked
      ensures View() == Mark(old(View()), id, true, 0.0)
    {
      var i := Find(store, id);
      if i >= 0 {
        store := store[i := store[i].(status := Sent)];
        acked := acked + {id};
      }
    }

    method MarkEntryFailed(id: nat, jitter: real)
      modifies this`store
      ensures View() == Mark(old(View()), id, false, jitter)
    {
      var i := Find(store, id);
      if i < 0 { return; }
      var entry := store[i].(retryCount := store[i].retryCount + 1);
      if entry.retryCount >= config.maxRetries {
        store := store[i := entry.(status := Dead)];
        return;
      }
      var expDelay := config.baseDelayMs * Pow2(entry.retryCount) as real;
      var delay := if expDelay + jitter < config.maxDelayMs then expDelay + jitter else config.maxDelayMs;
      store := store[i := entry.(status := PendingSend, nextRetryAt := now + delay)];
    }

    method CleanupSent(maxAgeMs: real)
      modifies this`store
      ensures View() == Step(old(View()), Cleanup(maxAgeMs))
    {
      var cutoff := now - maxAgeMs;
      var kept := [];
      ghost var all, rest := Kept(store, cutoff), Kept(store, cutoff);
      assert store[0..] == store;
      for i := 0 to |store|
        invariant store == old(store)
        invariant rest == Kept(store[i..], cutoff) && kept + rest == all
      {
        assert store[i..][1..] == store[i + 1..];
        rest := Kept(store[i + 1..], cutoff);
        if !(store[i].status == Sent && store[i].createdAt < cutoff) {
          AppendOne(kept, store[i], rest);
          kept := kept + [store[i]];
        }
      }
      assert store[|store|..] == [] && kept + [] == kept;
      store := kept;
    }

    /** Mark the head of the batch and call `sendFn`, or end the tick. */
    method HandOutNext()
      modifies this`store, this`isFlushing
      ensures View() == SendHead(old(View()))
    {
      if batch == [] {
        isFlushing := false;
        return;
      }
      var i := Find(store, batch[0]);
      if i >= 0 {
        store := store[i := store[i].(status := Sending, sends := store[i].sends + 1, sentAt := now)];
      }
    }

    /** The relay's timer. */
    method OnTick()
      modifies this
      ensures View() == Step(old(View()), Tick)
    {
      if isFlushing { return; }
      isFlushing := true;
      var pending := CollectPending();
      batch := Ids(pending);
      HandOutNext();
    }

    /** `sendFn` has come back. */
    method OnSendDone(ok: bool, jitter: real)
      requires batch != [] && jitter >= 0.0
      modifies this
      ensures View() == Step(old(View()), SendDone(ok, jitter))
    {
      if ok {
        MarkSent(batch[0]);
      } else {
        MarkEntryFailed(batch[0], jitter);
      }
      batch := batch[1..];
      HandOutNext();
    }
  }
}
