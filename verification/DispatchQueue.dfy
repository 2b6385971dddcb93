/** The per-key serializer (src/dispatch-queue.ts): a shared map from key to the tail of that
    key's promise chain.

    An operation is numbered when it is enqueued.  It then goes through the phases below, one
    microtask at a time; the phases of different operations interleave freely, and nothing
    says that a chain's cleanup callback runs before the next operation starts. */
module DispatchQueue {
  import opened Common

  // ---------------------------------------------------------------------------
  // Promises
  // ---------------------------------------------------------------------------

  datatype Settlement = Pending | Fulfilled | Rejected

  /** How a piece of code ends. */
  datatype Completion = Normal | Throws

  /** `try { body } catch { handler }` */
  function TryCatch(body: Completion, handler: Completion): Completion {
    if body.Throws? then handler else body
  }

  /** What an async callback's promise does when the callback has ended. */
  function AsyncSettles(c: Completion): Settlement { if c.Throws? then Rejected else Fulfilled }

  /** `p.catch(handler)` */
  function CatchSettles(p: Settlement, handler: Completion): Settlement {
    if p.Rejected? then AsyncSettles(handler) else p
  }

  /** Which of the two handlers stand in the code: the `catch` on the predecessor and the
      try/catch around `fn`.  The source has both. */
  datatype Handlers = Handlers(onPrevious: bool, aroundFn: bool)

  const SOURCE := Handlers(true, true)

  // ---------------------------------------------------------------------------
  // Operations
  // ---------------------------------------------------------------------------

  /** Waiting for the predecessor; running `fn`; callback ended and result delivered to the
      caller; chain promise settled; cleanup callback run. */
  datatype Phase = Waiting | Running | Delivered | ChainSettled | Cleaned

  function Rank(p: Phase): nat {
    match p
    case Waiting => 0
    case Running => 1
    case Delivered => 2
    case ChainSettled => 3
    case Cleaned => 4
  }

  /** `previous` is the operation whose chain was in the map at enqueue time, `caught` the promise
      `previous.catch(...)`, `completion` how the callback ended, `chain` the promise in the map;
      `result` tells whether the caller's promise was resolved or rejected. */
  datatype Op = Op(
    key: string, previous: Option<nat>, phase: Phase,
    caught: Settlement, completion: Completion, chain: Settlement, result: Option<bool>)

  datatype State = State(handlers: Handlers, ops: seq<Op>, queues: map<string, nat>, startLog: seq<nat>)

  function Init(handlers: Handlers): State { State(handlers, [], map[], []) }

  const INIT := Init(SOURCE)

  /** `CatchDone`: the promise `previous.catch(...)` settles.  `Start`: its `then` callback runs.
      `Skip`: it rejects past the `then`, whose promise rejects without a call of `fn`. */
  datatype Event =
    | Enqueue(key: string)
    | CatchDone(op: nat)
    | Start(op: nat)
    | Skip(op: nat)
    | FnSettled(op: nat, ok: bool)
    | ChainDone(op: nat)
    | Cleanup(op: nat)

  /** The settlement of the promise that operation `i` was chained to. */
  function PreviousSettlement(ops: seq<Op>, i: nat): Settlement
    requires i < |ops|
  {
    match ops[i].previous
    case None => Fulfilled
    case Some(p) => if p < |ops| then ops[p].chain else Pending
  }

  predicate Enabled(s: State, ev: Event) {
    match ev
    case Enqueue(_) => true
    case CatchDone(i) =>
      i < |s.ops| && s.ops[i].phase.Waiting? && s.ops[i].caught.Pending? && !PreviousSettlement(s.ops, i).Pending?
    case Start(i) => i < |s.ops| && s.ops[i].phase.Waiting? && s.ops[i].caught.Fulfilled?
    case Skip(i) => i < |s.ops| && s.ops[i].phase.Waiting? && s.ops[i].caught.Rejected?
    case FnSettled(i, _) => i < |s.ops| && s.ops[i].phase.Running?
    case ChainDone(i) => i < |s.ops| && s.ops[i].phase.Delivered?
    case Cleanup(i) => i < |s.ops| && s.ops[i].phase.ChainSettled?
  }

  function SetOp(s: State, i: nat, op: Op): State
    requires i < |s.ops|
  {
    s.(ops := s.ops[i := op])
  }

  function Next(s: State, ev: Event): State
    requires Enabled(s, ev)
  {
    match ev
    case Enqueue(key) =>
      var previous := if key in s.queues then Some(s.queues[key]) else None;
      s.(ops := s.ops + [Op(key, previous, Waiting, Pending, Normal, Pending, None)],
         queues := s.queues[key := |s.ops|])
    case CatchDone(i) =>
      var previous := PreviousSettlement(s.ops, i);
      SetOp(s, i, s.ops[i].(caught := if s.handlers.onPrevious then CatchSettles(previous, Normal) else previous))
    case Start(i) => SetOp(s, i, s.ops[i].(phase := Running)).(startLog := s.startLog + [i])
    case Skip(i) => SetOp(s, i, s.ops[i].(phase := ChainSettled, chain := Rejected))
    case FnSettled(i, ok) =>
      var awaited := if ok then Normal else Throws;
      var op := s.ops[i].(phase := Delivered);
      if s.handlers.aroundFn
      then SetOp(s, i, op.(completion := TryCatch(awaited, Normal), result := Some(ok)))
      else SetOp(s, i, op.(completion := awaited, result := if ok then Some(true) else None))
    case ChainDone(i) => SetOp(s, i, s.ops[i].(phase := ChainSettled, chain := AsyncSettles(s.ops[i].completion)))
    case Cleanup(i) =>
      var key := s.ops[i].key;
      var s' := SetOp(s, i, s.ops[i].(phase := Cleaned));
      if key in s.queues && s.queues[key] == i then s'.(queues := s.queues - {key}) else s'
  }

  /** An event that is not enabled does nothing, so runs cover every interleaving. */
  function Step(s: State, ev: Event): State {
    if Enabled(s, ev) then Next(s, ev) else s
  }

  function Run(s: State, evs: seq<Event>): State
    decreases |evs|
  {
    if evs == [] then s else Run(Step(s, evs[0]), evs[1..])
  }

  // ---------------------------------------------------------------------------
  // Failure isolation
  // ---------------------------------------------------------------------------

  /** How settlements and phases go together (`PromisesOk`), and what the handlers keep out
      (`Handled`): with either of them no `then` is passed by, and with the inner one no chain
      ever rejects. */
  ghost predicate PromiseInv(s: State) { PromisesOk(s) && Handled(s) }

  ghost predicate PromisesOk(s: State) { forall i :: 0 <= i < |s.ops| ==> PromiseOk(s, i) }

  ghost predicate Handled(s: State) {
    && (s.handlers.onPrevious || s.handlers.aroundFn ==> forall i :: 0 <= i < |s.ops| ==> !s.ops[i].caught.Rejected?)
    && (s.handlers.aroundFn ==>
          forall i :: 0 <= i < |s.ops| ==> !s.ops[i].chain.Rejected? && s.ops[i].completion.Normal?)
  }

  ghost predicate PromiseOk(s: State, i: nat)
    requires i < |s.ops|
  {
    var op := s.ops[i];
    && (op.chain.Pending? <==> Rank(op.phase) < 3)
    && (op.caught.Pending? ==> op.phase.Waiting?)
    && (op.previous.Some? && !op.caught.Pending? ==> op.previous.value < |s.ops| && !s.ops[op.previous.value].chain.Pending?)
  }

  lemma StepKeepsPromises(s: State, ev: Event)
    requires PromiseInv(s)
    ensures PromiseInv(Step(s, ev)) && Step(s, ev).handlers == s.handlers
  {
    var s' := Step(s, ev);
    StepKeepsHandled(s, ev);
    forall i | 0 <= i < |s'.ops| ensures PromiseOk(s', i) { StepKeepsPromiseOk(s, ev, i); }
  }

  lemma StepKeepsPromiseOk(s: State, ev: Event, i: nat)
    requires PromisesOk(s) && i < |Step(s, ev).ops|
    ensures PromiseOk(Step(s, ev), i)
  {
    if i < |s.ops| {
      assert PromiseOk(s, i);
      OwnStep(s, ev, i);
      var previous := s.ops[i].previous;
      if previous.Some? && previous.value < |s.ops| { SettledChainsStay(s, ev, previous.value); }
    }
  }

  /** What a step does to one operation. */
  lemma OwnStep(s: State, ev: Event, i: nat)
    requires i < |s.ops| && PromiseOk(s, i)
    ensures i < |Step(s, ev).ops|
    ensures var op, op' := s.ops[i], Step(s, ev).ops[i];
      && op'.previous == op.previous
      && (op'.chain.Pending? <==> Rank(op'.phase) < 3)
      && (op'.caught.Pending? ==> op'.phase.Waiting?)
      && (!op'.caught.Pending? ==> !op.caught.Pending? || !PreviousSettlement(s.ops, i).Pending?)
  {
  }

  lemma SettledChainsStay(s: State, ev: Event, i: nat)
    requires i < |s.ops| && PromiseOk(s, i)
    ensures i < |Step(s, ev).ops|
    ensures !s.ops[i].chain.Pending? ==> !Step(s, ev).ops[i].chain.Pending?
  {
  }

  lemma StepKeepsHandled(s: State, ev: Event)
    requires Handled(s)
    ensures Handled(Step(s, ev)) && Step(s, ev).handlers == s.handlers
  {
  }

  lemma {:induction false} RunKeepsPromises(s: State, evs: seq<Event>)
    requires PromiseInv(s)
    ensures PromiseInv(Run(s, evs)) && Run(s, evs).handlers == s.handlers
    decreases |evs|
  {
    if evs != [] {
      StepKeepsPromises(s, evs[0]);
      RunKeepsPromises(Step(s, evs[0]), evs[1..]);
    }
  }

  /** Whatever the operations do, the chain promises of the source never reject. */
  lemma EveryChainFulfils(evs: seq<Event>, i: nat)
    requires i < |Run(INIT, evs).ops|
    ensures !Run(INIT, evs).ops[i].chain.Rejected? && !Run(INIT, evs).ops[i].caught.Rejected?
  {
    RunKeepsPromises(INIT, evs);
  }

  // Without either handler a failing operation keeps its successor from ever being called.

  const BARE := Handlers(false, false)
  const FIRST := Op("k", None, Waiting, Pending, Normal, Pending, None)
  const SECOND := FIRST.(previous := Some(0))

  /** Two operations of one key, the first as given. */
  function Two(first: Op, startLog: seq<nat>): State {
    State(BARE, [first, SECOND], map["k" := 1], startLog)
  }

  lemma TwoEnqueued()
    ensures Step(Step(Init(BARE), Enqueue("k")), Enqueue("k")) == Two(FIRST, [])
  {
    var s1 := State(BARE, [FIRST], map["k" := 0], []);
    assert Step(Init(BARE), Enqueue("k")) == s1;
    assert s1.ops + [SECOND] == [FIRST, SECOND];
    assert map["k" := 0]["k" := 1] == map["k" := 1];
  }

  lemma FirstStarts()
    ensures Step(Step(Two(FIRST, []), CatchDone(0)), Start(0))
      == Two(FIRST.(caught := Fulfilled, phase := Running), [0])
  {
    var s1 := Two(FIRST.(caught := Fulfilled), []);
    assert Step(Two(FIRST, []), CatchDone(0)) == s1;
    assert s1.ops[0 := FIRST.(caught := Fulfilled, phase := Running)] == [FIRST.(caught := Fulfilled, phase := Running), SECOND];
    assert [] + [0] == [0];
  }

  lemma FirstFails()
    ensures Step(Step(Two(FIRST.(caught := Fulfilled, phase := Running), [0]), FnSettled(0, false)), ChainDone(0))
      == Two(FIRST.(caught := Fulfilled, phase := ChainSettled, completion := Throws, chain := Rejected), [0])
  {
    var delivered := FIRST.(caught := Fulfilled, phase := Delivered, completion := Throws);
    assert Step(Two(FIRST.(caught := Fulfilled, phase := Running), [0]), FnSettled(0, false)) == Two(delivered, [0]);
  }

  lemma RunTwo(s: State, e: Event, f: Event, rest: seq<Event>)
    ensures Run(s, [e, f] + rest) == Run(Step(Step(s, e), f), rest)
  {
    assert ([e, f] + rest)[1..] == [f] + rest && ([f] + rest)[1..] == rest;
  }

  function FirstFailsRun(): seq<Event> {
    [Enqueue("k"), Enqueue("k")] + ([CatchDone(0), Start(0)] + ([FnSettled(0, false), ChainDone(0)] + [CatchDone(1)]))
  }

  lemma WithoutHandlersFailuresCascade()
    ensures Enabled(Run(Init(BARE), FirstFailsRun()), Skip(1))
  {
    var last := [CatchDone(1)];
    var failed := Two(FIRST.(caught := Fulfilled, phase := ChainSettled, completion := Throws, chain := Rejected), [0]);
    TwoEnqueued();
    FirstStarts();
    FirstFails();
    RunTwo(Init(BARE), Enqueue("k"), Enqueue("k"), [CatchDone(0), Start(0)] + ([FnSettled(0, false), ChainDone(0)] + last));
    RunTwo(Two(FIRST, []), CatchDone(0), Start(0), [FnSettled(0, false), ChainDone(0)] + last);
    RunTwo(Two(FIRST.(caught := Fulfilled, phase := Running), [0]), FnSettled(0, false), ChainDone(0), last);
    assert last[1..] == [] && Run(failed, last) == Step(failed, CatchDone(1));
  }

  /** After the run, operation `i` will settle without a call of its `fn`. */
  ghost predicate PassedBy(handlers: Handlers, evs: seq<Event>, i: nat) {
    Enabled(Run(Init(handlers), evs), Skip(i))
  }

  /** What isolates failures: in every run every operation gets its call if and only if one of the
      two handlers is there.  Each would do without the other. */
  lemma FailuresAreIsolatedIff(handlers: Handlers)
    ensures (forall evs: seq<Event>, i: nat :: !PassedBy(handlers, evs, i))
      <==> handlers.onPrevious || handlers.aroundFn
  {
    if handlers.onPrevious || handlers.aroundFn {
      forall evs: seq<Event>, i: nat ensures !PassedBy(handlers, evs, i) {
        RunKeepsPromises(Init(handlers), evs);
      }
    } else {
      WithoutHandlersFailuresCascade();
      assert handlers == BARE && PassedBy(handlers, FirstFailsRun(), 1);
    }
  }

  /** Two states that differ only in how operations came out. */
  ghost predicate AlikeUpToOutcomes(s: State, t: State) {
    && s.handlers == t.handlers && |s.ops| == |t.ops| && s.queues == t.queues && s.startLog == t.startLog
    && forall i :: 0 <= i < |s.ops| ==>
         && s.ops[i].key == t.ops[i].key && s.ops[i].previous == t.ops[i].previous
         && s.ops[i].phase == t.ops[i].phase && s.ops[i].caught == t.ops[i].caught
  }

  predicate SameUpToOutcome(e: Event, f: Event) {
    e == f || (e.FnSettled? && f.FnSettled? && e.op == f.op)
  }

  lemma StepsAlike(s: State, t: State, e: Event, f: Event)
    requires s.handlers.onPrevious || s.handlers.aroundFn
    requires PromiseInv(s) && PromiseInv(t) && AlikeUpToOutcomes(s, t) && SameUpToOutcome(e, f)
    ensures Enabled(s, e) == Enabled(t, f) && AlikeUpToOutcomes(Step(s, e), Step(t, f))
  {
    if e.CatchDone? && e.op < |s.ops| {
      var i := e.op;
      if s.ops[i].previous.Some? && s.ops[i].previous.value < |s.ops| {
        assert PromiseOk(s, s.ops[i].previous.value) && PromiseOk(t, s.ops[i].previous.value);
      }
    }
  }

  /** With either handler, whichever operations reject, the schedule is the same: the same events
      are possible, and the same operations start in the same order. */
  lemma {:induction false} FailuresDoNotCascade(s: State, t: State, es: seq<Event>, fs: seq<Event>)
    requires s.handlers.onPrevious || s.handlers.aroundFn
    requires PromiseInv(s) && PromiseInv(t) && AlikeUpToOutcomes(s, t) && |es| == |fs|
    requires forall k :: 0 <= k < |es| ==> SameUpToOutcome(es[k], fs[k])
    ensures AlikeUpToOutcomes(Run(s, es), Run(t, fs))
    decreases |es|
  {
    if es != [] {
      assert SameUpToOutcome(es[0], fs[0]);
      StepsAlike(s, t, es[0], fs[0]);
      StepKeepsPromises(s, es[0]);
      StepKeepsPromises(t, fs[0]);
      FailuresDoNotCascade(Step(s, es[0]), Step(t, fs[0]), es[1..], fs[1..]);
    }
  }

  // ---------------------------------------------------------------------------
  // The invariant of every run
  // ---------------------------------------------------------------------------

  /** Of two operations of one key, the later has not started before the earlier's chain settled. */
  ghost predicate Serial(s: State) {
    forall i, j :: 0 <= i < j < |s.ops| && s.ops[i].key == s.ops[j].key && !s.ops[j].phase.Waiting?
      ==> Rank(s.ops[i].phase) >= 3
  }

  /** An operation waits for the one enqueued just before it under the same key, or for nobody
      if all of those have settled. */
  ghost predicate LinkInv(s: State, j: nat)
    requires j < |s.ops|
  {
    match s.ops[j].previous
    case None => forall i :: 0 <= i < j && s.ops[i].key == s.ops[j].key ==> Rank(s.ops[i].phase) >= 3
    case Some(p) =>
      && p < j && s.ops[p].key == s.ops[j].key
      && forall i :: p < i < j ==> s.ops[i].key != s.ops[j].key
  }

  ghost predicate MapInv(s: State) {
    && (forall k :: k in s.queues ==>
          var t := s.queues[k];
          && t < |s.ops| && s.ops[t].key == k && !s.ops[t].phase.Cleaned?
          && forall i :: t < i < |s.ops| ==> s.ops[i].key != k)
    && (forall i :: 0 <= i < |s.ops| && s.ops[i].key !in s.queues ==> Rank(s.ops[i].phase) >= 3)
  }

  ghost predicate ResultInv(s: State) {
    forall i :: 0 <= i < |s.ops| ==> (s.ops[i].result.Some? <==> Rank(s.ops[i].phase) >= 2)
  }

  ghost predicate LogInv(s: State) {
    && (forall a :: 0 <= a < |s.startLog| ==> s.startLog[a] < |s.ops|)
    && (forall a :: 0 <= a < |s.startLog| ==> !s.ops[s.startLog[a]].phase.Waiting?)
    && (forall i :: 0 <= i < |s.ops| && !s.ops[i].phase.Waiting? ==> i in s.startLog)
    && (forall a, b :: 0 <= a < b < |s.startLog| ==> s.startLog[a] != s.startLog[b])
    && (forall a, b :: 0 <= a < b < |s.startLog| && s.ops[s.startLog[a]].key == s.ops[s.startLog[b]].key
          ==> s.startLog[a] < s.startLog[b])
  }

  ghost predicate LinksInv(s: State) { forall j: nat {:trigger LinkInv(s, j)} :: j < |s.ops| ==> LinkInv(s, j) }

  ghost predicate QueueInv(s: State) {
    Serial(s) && LinksInv(s) && MapInv(s) && ResultInv(s) && LogInv(s)
  }

  ghost predicate Inv(s: State) { s.handlers == SOURCE && PromiseInv(s) && QueueInv(s) }

  /** The heart of the matter: when an operation may start, every earlier one of its key has settled. */
  lemma StartMeansAllEarlierSettled(s: State, j: nat)
    requires Inv(s) && Enabled(s, Start(j))
    ensures forall i :: 0 <= i < j && s.ops[i].key == s.ops[j].key ==> Rank(s.ops[i].phase) >= 3
  {
    assert LinkInv(s, j) && PromiseOk(s, j);
    if s.ops[j].previous.Some? {
      var p := s.ops[j].previous.value;
      assert PromiseOk(s, p);
      forall i | 0 <= i < j && s.ops[i].key == s.ops[j].key ensures Rank(s.ops[i].phase) >= 3 {
        assert i <= p;
      }
    }
  }

  /** A started operation is later than every started one of its key. */
  lemma StartIsLatest(s: State, j: nat)
    requires Inv(s) && Enabled(s, Start(j))
    ensures j !in s.startLog
    ensures forall a :: 0 <= a < |s.startLog| && s.ops[s.startLog[a]].key == s.ops[j].key ==> s.startLog[a] < j
  {
    StartMeansAllEarlierSettled(s, j);
    forall a | 0 <= a < |s.startLog| && s.ops[s.startLog[a]].key == s.ops[j].key ensures s.startLog[a] < j {
      var i := s.startLog[a];
      assert i <= j;
    }
  }

  lemma StepKeepsInv(s: State, ev: Event)
    requires Inv(s)
    ensures Inv(Step(s, ev))
  {
    StepKeepsPromises(s, ev);
    if Enabled(s, ev) {
      match ev
      case Enqueue(key) => EnqueueKeepsInv(s, key);
      case CatchDone(i) => CatchDoneKeepsInv(s, i);
      case Start(i) => StartKeepsInv(s, i);
      case FnSettled(i, ok) => FnSettledKeepsInv(s, i, ok);
      case ChainDone(i) => ChainDoneKeepsInv(s, i);
      case Cleanup(i) => CleanupKeepsInv(s, i);
    }
  }

  lemma CatchDoneKeepsInv(s: State, i: nat)
    requires Inv(s) && Enabled(s, CatchDone(i))
    ensures QueueInv(Next(s, CatchDone(i)))
  {
    ForwardKeepsInv(s, Next(s, CatchDone(i)));
  }

  lemma FnSettledKeepsInv(s: State, i: nat, ok: bool)
    requires Inv(s) && Enabled(s, FnSettled(i, ok))
    ensures QueueInv(Next(s, FnSettled(i, ok)))
  {
    ForwardKeepsInv(s, Next(s, FnSettled(i, ok)));
  }

  lemma ChainDoneKeepsInv(s: State, i: nat)
    requires Inv(s) && Enabled(s, ChainDone(i))
    ensures QueueInv(Next(s, ChainDone(i)))
  {
    ForwardKeepsInv(s, Next(s, ChainDone(i)));
  }

  lemma EnqueueKeepsInv(s: State, key: string)
    requires Inv(s)
    ensures QueueInv(Next(s, Enqueue(key)))
  {
    var s' := Next(s, Enqueue(key));
    EnqueueKeepsMap(s, key);
    EnqueueKeepsLog(s, key);
    forall j: nat | j < |s'.ops| ensures LinkInv(s', j) {
      if j < |s.ops| { assert LinkInv(s, j); } else { NewLink(s, key); }
    }
  }

  lemma EnqueueKeepsMap(s: State, key: string)
    requires MapInv(s)
    ensures MapInv(Next(s, Enqueue(key)))
  {
  }

  lemma EnqueueKeepsLog(s: State, key: string)
    requires LogInv(s)
    ensures LogInv(Next(s, Enqueue(key)))
  {
  }

  /** The new operation waits for the latest one of its key. */
  lemma NewLink(s: State, key: string)
    requires MapInv(s)
    ensures LinkInv(Next(s, Enqueue(key)), |s.ops|)
  {
  }

  /** Phases only ever move forward; links survive that. */
  ghost predicate Advances(s: State, s': State) {
    && |s'.ops| == |s.ops|
    && forall j :: 0 <= j < |s.ops| ==>
         && s'.ops[j].key == s.ops[j].key && s'.ops[j].previous == s.ops[j].previous
         && Rank(s.ops[j].phase) <= Rank(s'.ops[j].phase)
  }

  lemma AdvancingKeepsLinks(s: State, s': State)
    requires Advances(s, s') && LinksInv(s)
    ensures LinksInv(s')
  {
    forall j: nat | j < |s'.ops| ensures LinkInv(s', j) { assert LinkInv(s, j); }
  }

  ghost predicate SameStarts(s: State, s': State) {
    && s'.startLog == s.startLog && |s'.ops| == |s.ops|
    && forall j :: 0 <= j < |s.ops| ==> (s'.ops[j].phase.Waiting? <==> s.ops[j].phase.Waiting?)
  }

  lemma AdvancingKeepsLog(s: State, s': State)
    requires Advances(s, s') && SameStarts(s, s') && LogInv(s)
    ensures LogInv(s')
  {
  }

  lemma AdvancingKeepsSerial(s: State, s': State)
    requires Advances(s, s') && SameStarts(s, s') && Serial(s)
    ensures Serial(s')
  {
  }

  lemma StartKeepsLog(s: State, i: nat)
    requires Inv(s) && Enabled(s, Start(i))
    ensures LogInv(Next(s, Start(i)))
  {
    StartIsLatest(s, i);
    LogGrows(s, Next(s, Start(i)), i);
  }

  lemma LogGrows(s: State, s': State, i: nat)
    requires LogInv(s) && i < |s.ops| && Advances(s, s') && s'.startLog == s.startLog + [i]
    requires !s'.ops[i].phase.Waiting?
    requires forall j :: 0 <= j < |s.ops| && j != i ==> s'.ops[j] == s.ops[j]
    requires i !in s.startLog
    requires forall a :: 0 <= a < |s.startLog| ==> s.startLog[a] < |s.ops|
    requires forall a :: 0 <= a < |s.startLog| && s.ops[s.startLog[a]].key == s.ops[i].key ==> s.startLog[a] < i
    ensures LogInv(s')
  {
    var n := |s.startLog|;
    assert forall a :: 0 <= a < n ==> s'.startLog[a] == s.startLog[a] && s.startLog[a] in s.startLog;
    forall j | 0 <= j < |s'.ops| && !s'.ops[j].phase.Waiting? ensures j in s'.startLog {
      if j == i { assert s'.startLog[n] == i; }
    }
  }

  lemma StartKeepsInv(s: State, i: nat)
    requires Inv(s) && Enabled(s, Start(i))
    ensures QueueInv(Next(s, Start(i)))
  {
    var s' := Next(s, Start(i));
    StartKeepsSerial(s, i);
    StartKeepsLog(s, i);
    AdvancingKeepsLinks(s, s');
  }

  lemma StartKeepsSerial(s: State, i: nat)
    requires Inv(s) && Enabled(s, Start(i))
    ensures Serial(Next(s, Start(i)))
  {
    StartMeansAllEarlierSettled(s, i);
  }

  lemma AdvancingKeepsMap(s: State, s': State)
    requires Advances(s, s') && s'.queues == s.queues && MapInv(s)
    requires forall j :: 0 <= j < |s.ops| && s'.ops[j].phase.Cleaned? ==> s.ops[j].phase.Cleaned?
    ensures MapInv(s')
  {
  }

  /** A step that starts nothing and cleans nothing up, but only moves operations forward. */
  lemma ForwardKeepsInv(s: State, s': State)
    requires QueueInv(s) && Advances(s, s') && SameStarts(s, s') && s'.queues == s.queues && ResultInv(s')
    requires forall j :: 0 <= j < |s.ops| && s'.ops[j].phase.Cleaned? ==> s.ops[j].phase.Cleaned?
    ensures QueueInv(s')
  {
    AdvancingKeepsLinks(s, s');
    AdvancingKeepsLog(s, s');
    AdvancingKeepsSerial(s, s');
    AdvancingKeepsMap(s, s');
  }

  lemma CleanupKeepsInv(s: State, i: nat)
    requires Inv(s) && Enabled(s, Cleanup(i))
    ensures QueueInv(Next(s, Cleanup(i)))
  {
    var s' := Next(s, Cleanup(i));
    AdvancingKeepsLinks(s, s');
    AdvancingKeepsLog(s, s');
    AdvancingKeepsSerial(s, s');
    CleanupKeepsMap(s, i);
    CleanupKeepsResults(s, i);
  }

  lemma CleanupKeepsResults(s: State, i: nat)
    requires ResultInv(s) && Enabled(s, Cleanup(i))
    ensures ResultInv(Next(s, Cleanup(i)))
  {
  }

  /** The identity check before the delete: an entry that a later operation has replaced stays,
      and when the entry goes, everything under its key has settled. */
  lemma CleanupKeepsMap(s: State, i: nat)
    requires MapInv(s) && Serial(s) && Enabled(s, Cleanup(i))
    ensures MapInv(Next(s, Cleanup(i)))
  {
    var s' := Next(s, Cleanup(i));
    forall j | 0 <= j < |s'.ops| && s'.ops[j].key !in s'.queues ensures Rank(s'.ops[j].phase) >= 3 {
      if s.ops[j].key in s.queues {
        assert s.ops[j].key == s.ops[i].key && s.queues[s.ops[i].key] == i;
        assert j <= i;
      }
    }
  }

  lemma {:induction false} RunKeepsInv(s: State, evs: seq<Event>)
    requires Inv(s)
    ensures Inv(Run(s, evs))
    decreases |evs|
  {
    if evs != [] {
      StepKeepsInv(s, evs[0]);
      RunKeepsInv(Step(s, evs[0]), evs[1..]);
    }
  }

  // ---------------------------------------------------------------------------
  // Whole runs
  // ---------------------------------------------------------------------------

  /** Once an operation has started, every earlier operation of its key has delivered its result
      and its chain has settled; so at most one of a key runs. */
  lemma MutualExclusion(evs: seq<Event>, i: nat, j: nat)
    requires i < j < |Run(INIT, evs).ops|
    requires Run(INIT, evs).ops[i].key == Run(INIT, evs).ops[j].key
    requires !Run(INIT, evs).ops[j].phase.Waiting?
    ensures Rank(Run(INIT, evs).ops[i].phase) >= 3 && Run(INIT, evs).ops[i].result.Some?
  {
    RunKeepsInv(INIT, evs);
  }

  /** Operations start once each, those of one key in the order they were enqueued. */
  lemma StartsInEnqueueOrder(evs: seq<Event>, a: nat, b: nat)
    requires a < b < |Run(INIT, evs).startLog|
    ensures var s := Run(INIT, evs);
      && s.startLog[a] < |s.ops| && s.startLog[b] < |s.ops|
      && s.startLog[a] != s.startLog[b]
      && (s.ops[s.startLog[a]].key == s.ops[s.startLog[b]].key ==> s.startLog[a] < s.startLog[b])
  {
    RunKeepsInv(INIT, evs);
  }

  /** A key that is not in the map has nothing unsettled, and once all cleanups have run the map is empty. */
  lemma MapCleansItself(evs: seq<Event>)
    ensures var s := Run(INIT, evs);
      && (forall i :: 0 <= i < |s.ops| && s.ops[i].key !in s.queues ==> Rank(s.ops[i].phase) >= 3)
      && ((forall i :: 0 <= i < |s.ops| ==> s.ops[i].phase.Cleaned?) ==> s.queues == map[])
  {
    RunKeepsInv(INIT, evs);
  }

  ghost predicate EarliestUnsettled(s: State, i: nat) {
    && i < |s.ops| && Rank(s.ops[i].phase) < 3
    && forall j :: 0 <= j < i && s.ops[j].key == s.ops[i].key ==> Rank(s.ops[j].phase) >= 3
  }

  /** No key stalls: its earliest unsettled operation can go on towards its call, runs, or is about to settle. */
  lemma EarliestUnsettledCanMove(evs: seq<Event>, i: nat, ok: bool)
    requires EarliestUnsettled(Run(INIT, evs), i)
    ensures var s := Run(INIT, evs);
      Enabled(s, CatchDone(i)) || Enabled(s, Start(i)) || Enabled(s, FnSettled(i, ok)) || Enabled(s, ChainDone(i))
  {
    RunKeepsInv(INIT, evs);
    var s := Run(INIT, evs);
    assert LinkInv(s, i);
    if s.ops[i].previous.Some? { assert PromiseOk(s, s.ops[i].previous.value); }
  }

  /** The operation a step acts on, if any. */
  function Subject(ev: Event): Option<nat> {
    match ev
    case Enqueue(_) => None
    case CatchDone(i) => Some(i)
    case Start(i) => Some(i)
    case Skip(i) => Some(i)
    case FnSettled(i, _) => Some(i)
    case ChainDone(i) => Some(i)
    case Cleanup(i) => Some(i)
  }

  /** Different keys run concurrently: a step on another key never enables or disables a start. */
  lemma KeysAreIndependent(s: State, ev: Event, i: nat)
    requires Inv(s) && i < |s.ops|
    requires Subject(ev).Some? && Subject(ev).value < |s.ops| ==> s.ops[Subject(ev).value].key != s.ops[i].key
    ensures Enabled(Step(s, ev), Start(i)) <==> Enabled(s, Start(i))
    ensures Enabled(Step(s, ev), CatchDone(i)) <==> Enabled(s, CatchDone(i))
  {
    assert LinkInv(s, i);
    OtherKeyIsUntouched(s, ev, s.ops[i].key, i);
    if s.ops[i].previous.Some? { OtherKeyIsUntouched(s, ev, s.ops[i].key, s.ops[i].previous.value); }
  }

  lemma OtherKeyIsUntouched(s: State, ev: Event, key: string, i: nat)
    requires i < |s.ops| && s.ops[i].key == key
    requires Subject(ev).Some? && Subject(ev).value < |s.ops| ==> s.ops[Subject(ev).value].key != key
    ensures |s.ops| <= |Step(s, ev).ops| && Step(s, ev).ops[i] == s.ops[i]
  {
  }

  /** How the first call of `fn` for operation `i` came out along a run, if it has. */
  function FirstOutcome(s: State, evs: seq<Event>, i: nat): Option<bool>
    decreases |evs|
  {
    if evs == [] then None
    else if evs[0].FnSettled? && evs[0].op == i && Enabled(s, evs[0]) then Some(evs[0].ok)
    else FirstOutcome(Step(s, evs[0]), evs[1..], i)
  }

  /** What the results rest on. */
  ghost predicate ResultsOk(s: State) { s.handlers == SOURCE && Handled(s) && ResultInv(s) }

  lemma StepKeepsResults(s: State, ev: Event, i: nat)
    requires ResultsOk(s)
    ensures ResultsOk(Step(s, ev))
    ensures i < |Step(s, ev).ops| ==>
      Step(s, ev).ops[i].result == (
        if i < |s.ops| && s.ops[i].result.Some? then s.ops[i].result
        else if ev.FnSettled? && ev.op == i && Enabled(s, ev) then Some(ev.ok)
        else None)
  {
    StepKeepsHandled(s, ev);
  }

  lemma {:induction false} ResultAlongRun(s: State, evs: seq<Event>, i: nat)
    requires ResultsOk(s) && i < |Run(s, evs).ops|
    ensures Run(s, evs).ops[i].result ==
      if i < |s.ops| && s.ops[i].result.Some? then s.ops[i].result else FirstOutcome(s, evs, i)
    decreases |evs|
  {
    if evs != [] {
      var s' := Step(s, evs[0]);
      StepKeepsResults(s, evs[0], i);
      ResultAlongRun(s', evs[1..], i);
    }
  }

  /** After any run a caller has received the outcome of the first and only call of its own
      `fn`, and nothing before that. */
  lemma ResultIsOwnOutcome(evs: seq<Event>, i: nat)
    requires i < |Run(INIT, evs).ops|
    ensures Run(INIT, evs).ops[i].result == FirstOutcome(INIT, evs, i)
  {
    ResultAlongRun(INIT, evs, i);
  }

  // ---------------------------------------------------------------------------
  // The shared map and the callbacks that update it
  // ---------------------------------------------------------------------------

  class Dispatcher {
    var queues: map<string, nat>
    var ops: seq<Op>
    ghost var startLog: seq<nat>

    ghost function View(): State reads this { State(SOURCE, ops, queues, startLog) }

    constructor ()
      ensures View() == INIT
    {
      queues, ops, startLog := map[], [], [];
    }

    method EnqueueDispatch(key: string) returns (chain: nat)
      modifies this
      ensures View() == Step(old(View()), Enqueue(key)) && chain == |old(ops)|
    {
      var previous := if key in queues then Some(queues[key]) else None;
      chain := |ops|;
      ops := ops + [Op(key, previous, Waiting, Pending, Normal, Pending, None)];
      queues := queues[key := chain];
    }

    /** `previous.catch(() => {})` settles: a rejection runs the handler, which does not throw. */
    method CatchPrevious(chain: nat)
      requires Enabled(View(), CatchDone(chain))
      modifies this
      ensures View() == Step(old(View()), CatchDone(chain))
    {
      var previous := PreviousSettlement(ops, chain);
      if previous.Rejected? { previous := AsyncSettles(Normal); }
      ops := ops[chain := ops[chain].(caught := previous)];
    }

    /** The `then` callback runs up to `await fn()`. */
    method CallFn(chain: nat)
      requires Enabled(View(), Start(chain))
      modifies this
      ensures View() == Step(old(View()), Start(chain))
    {
      ops := ops[chain := ops[chain].(phase := Running)];
      startLog := startLog + [chain];
    }

    /** The rest of the callback: the try block goes on, or its catch clause runs. */
    method DeliverResult(chain: nat, ok: bool)
      requires Enabled(View(), FnSettled(chain, ok))
      modifies this
      ensures View() == Step(old(View()), FnSettled(chain, ok))
    {
      var op := ops[chain].(phase := Delivered);
      var awaited := if ok then Normal else Throws;
      match awaited {
        case Normal => op := op.(result := Some(true), completion := Normal);
        case Throws => op := op.(result := Some(false), completion := TryCatch(Throws, Normal));
      }
      ops := ops[chain := op];
    }

    method SettleChain(chain: nat)
      requires Enabled(View(), ChainDone(chain))
      modifies this
      ensures View() == Step(old(View()), ChainDone(chain))
    {
      ops := ops[chain := ops[chain].(phase := ChainSettled, chain := AsyncSettles(ops[chain].completion))];
    }

    /** The `finally` callback. */
    method CleanupTail(chain: nat)
      requires Enabled(View(), Cleanup(chain))
      modifies this
      ensures View() == Step(old(View()), Cleanup(chain))
    {
      var key := ops[chain].key;
      ops := ops[chain := ops[chain].(phase := Cleaned)];
      if key in queues && queues[key] == chain {
        queues := queues - {key};
      }
    }
  }
}
