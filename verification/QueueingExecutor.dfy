/** The bounded FIFO scheduler (src/queueing-executor.ts).

    Every function below is one synchronous stretch of the source, from one `await` to the
    next, so a run is an arbitrary sequence of such steps.  The delegate's outcome is an
    input.  Each call of `execute` gets a fresh ticket, which stands for the promise it
    returns; task ids are chosen by the caller and may repeat. */
module QueueingExecutor {
  import opened Common

  type TaskId = string

  datatype Entry = Entry(ticket: nat, taskId: TaskId)

  /** How the promise of one `execute` call settles; only `Failed` rejects it. */
  datatype Outcome = Overloaded | Canceled | Completed | Failed

  /** The fields of the executor, then the history of the run: which tickets run (and for
      which task), the tickets in the order they were started, and for every ticket the
      outcomes its promise has received. */
  datatype State = State(
    maxConcurrent: int,
    maxQueued: int,
    queue: seq<Entry>,
    pending: map<TaskId, Entry>,
    active: int,
    running: map<nat, TaskId>,
    started: seq<nat>,
    outcomes: seq<seq<Outcome>>)

  function Init(maxConcurrentTasks: int, maxQueuedTasks: int): State {
    State(Max(1, maxConcurrentTasks), Max(0, maxQueuedTasks), [], map[], 0, map[], [], [])
  }

  /** `findIndex`: the first entry with this id, or -1. */
  function FindIndex(queue: seq<Entry>, taskId: TaskId): (i: int)
    ensures -1 <= i < |queue|
    ensures i >= 0 ==> queue[i].taskId == taskId
    ensures forall j :: 0 <= j < (if i < 0 then |queue| else i) ==> queue[j].taskId != taskId
  {
    if queue == [] then -1
    else if queue[0].taskId == taskId then 0
    else var i := FindIndex(queue[1..], taskId); if i < 0 then -1 else i + 1
  }

  /** `splice(i, 1)` */
  function RemoveAt<T>(s: seq<T>, i: nat): seq<T>
    requires i < |s|
  {
    s[..i] + s[i + 1..]
  }

  function WithoutTask(queue: seq<Entry>, taskId: TaskId): seq<Entry> {
    var i := FindIndex(queue, taskId);
    if i < 0 then queue else RemoveAt(queue, i)
  }

  /** The promise of ticket `t` receives outcome `o`. */
  function Deliver(outcomes: seq<seq<Outcome>>, t: nat, o: Outcome): seq<seq<Outcome>> {
    if t < |outcomes| then outcomes[t := outcomes[t] + [o]] else outcomes
  }

  /** The head of `runEntry`, up to the call of the delegate. */
  function Start(s: State, e: Entry): State {
    s.(queue := WithoutTask(s.queue, e.taskId),
       active := s.active + 1,
       running := s.running[e.ticket := e.taskId],
       started := s.started + [e.ticket])
  }

  function Drain(s: State): State
    decreases |s.queue|
  {
    if s.active < s.maxConcurrent && |s.queue| > 0
    then Drain(Start(s.(queue := s.queue[1..]), s.queue[0]))
    else s
  }

  function Execute(s: State, taskId: TaskId): State {
    var e := Entry(|s.outcomes|, taskId);
    var s' := s.(outcomes := s.outcomes + [[]], pending := s.pending[taskId := e]);
    if s'.active < s'.maxConcurrent then Start(s', e)
    else if |s'.queue| >= s'.maxQueued then
      s'.(pending := s'.pending - {taskId}, outcomes := Deliver(s'.outcomes, e.ticket, Overloaded))
    else s'.(queue := s'.queue + [e])
  }

  /** A task that is not queued is handed to the delegate, which is outside the model. */
  function Cancel(s: State, taskId: TaskId): State {
    var i := FindIndex(s.queue, taskId);
    if i < 0 then s
    else s.(queue := RemoveAt(s.queue, i),
            pending := s.pending - {taskId},
            outcomes := Deliver(s.outcomes, s.queue[i].ticket, Canceled))
  }

  /** The tail of `runEntry`, once the delegate has settled, up to the call of `drainQueue`. */
  function Release(s: State, t: nat, ok: bool): State
    requires t in s.running
  {
    s.(pending := s.pending - {s.running[t]},
       active := Max(0, s.active - 1),
       running := s.running - {t},
       outcomes := Deliver(s.outcomes, t, if ok then Completed else Failed))
  }

  datatype Event = Submit(taskId: TaskId) | CancelTask(taskId: TaskId) | Settle(ticket: nat, ok: bool)

  /** An event that cannot happen in `s` (a ticket settling that does not run) leaves it alone. */
  function Step(s: State, ev: Event): State {
    match ev
    case Submit(id) => Execute(s, id)
    case CancelTask(id) => Cancel(s, id)
    case Settle(t, ok) => if t in s.running then Drain(Release(s, t, ok)) else s
  }

  function Run(s: State, evs: seq<Event>): State
    decreases |evs|
  {
    if evs == [] then s else Run(Step(s, evs[0]), evs[1..])
  }

  // ---------------------------------------------------------------------------
  // The invariant of every run
  // ---------------------------------------------------------------------------

  ghost predicate IsQueued(s: State, t: nat) {
    exists e :: e in s.queue && e.ticket == t
  }

  ghost predicate Ascending(ts: seq<nat>) {
    forall i, j :: 0 <= i < j < |ts| ==> ts[i] < ts[j]
  }

  ghost predicate AscendingQueue(q: seq<Entry>) {
    forall i, j :: 0 <= i < j < |q| ==> q[i].ticket < q[j].ticket
  }

  ghost predicate CapacityInv(s: State) {
    && 1 <= s.maxConcurrent && 0 <= s.maxQueued
    && s.active == |s.running| <= s.maxConcurrent
    && |s.queue| <= s.maxQueued
    && (s.queue != [] ==> s.active == s.maxConcurrent)
  }

  ghost predicate OrderInv(s: State) {
    && AscendingQueue(s.queue) && Ascending(s.started)
    && (forall t, e :: t in s.started && e in s.queue ==> t < e.ticket)
    && (forall e :: e in s.queue ==> e.ticket < |s.outcomes|)
    && (forall t :: t in s.started ==> t < |s.outcomes|)
    && (forall t :: t in s.running ==> t in s.started)
  }

  /** A promise is settled at most once, by the delegate if and only if its task was started. */
  ghost predicate FateInv(outcomes: seq<seq<Outcome>>, t: nat, started: bool, waiting: bool)
    requires t < |outcomes|
  {
    if waiting then outcomes[t] == []
    else if started then outcomes[t] == [Completed] || outcomes[t] == [Failed]
    else outcomes[t] == [] || outcomes[t] == [Overloaded] || outcomes[t] == [Canceled]
  }

  ghost predicate SettleInv(s: State) {
    forall t: nat {:trigger s.outcomes[t]} :: t < |s.outcomes| ==>
      FateInv(s.outcomes, t, t in s.started, IsQueued(s, t) || t in s.running)
  }

  ghost predicate Inv(s: State) { CapacityInv(s) && OrderInv(s) && SettleInv(s) }

  // ---------------------------------------------------------------------------
  // One step
  // ---------------------------------------------------------------------------

  lemma WithoutTaskFacts(queue: seq<Entry>, taskId: TaskId)
    requires AscendingQueue(queue)
    ensures var q := WithoutTask(queue, taskId);
      && AscendingQueue(q) && |queue| - 1 <= |q| <= |queue|
      && (forall e :: e in q <==> e in queue && (FindIndex(queue, taskId) >= 0 ==> e != queue[FindIndex(queue, taskId)]))
  {
    var i := FindIndex(queue, taskId);
    var q := WithoutTask(queue, taskId);
    if i >= 0 {
      forall e | e in queue && e != queue[i] ensures e in q {
        var j :| 0 <= j < |queue| && queue[j] == e;
        assert if j < i then q[j] == e else q[j - 1] == e;
      }
    }
  }

  /** One finished task frees one slot and hands it to the head of the queue; nothing else is
      started.  In particular the clamp `Math.max(0, ...)` never acts. */
  lemma FinishStartsTheHead(s: State, t: nat, ok: bool)
    requires CapacityInv(s) && t in s.running
    ensures var r := Release(s, t, ok);
      && r.active == s.active - 1
      && Drain(r) == if s.queue == [] then r else Start(r.(queue := s.queue[1..]), s.queue[0])
  {
    assert |s.running| >= 1 by { assert s.running.Keys != {}; }
    var r := Release(s, t, ok);
    if s.queue != [] {
      var s1 := Start(r.(queue := s.queue[1..]), s.queue[0]);
      assert s1.active == s1.maxConcurrent;
      assert Drain(r) == Drain(s1) == s1;
    }
  }

  lemma StepKeepsInv(s: State, ev: Event)
    requires Inv(s)
    ensures Inv(Step(s, ev))
  {
    match ev
    case Submit(id) => ExecuteKeepsInv(s, id);
    case CancelTask(id) => CancelKeepsInv(s, id);
    case Settle(t, ok) => if t in s.running { FinishKeepsInv(s, t, ok); }
  }

  lemma AscendingAppend(ts: seq<nat>, t: nat)
    requires Ascending(ts) && forall u :: u in ts ==> u < t
    ensures Ascending(ts + [t])
  {
    forall i, j | 0 <= i < j < |ts| + 1 ensures (ts + [t])[i] < (ts + [t])[j] {
      assert ts[i] in ts;
    }
  }

  lemma ExecuteKeepsInv(s: State, id: TaskId)
    requires Inv(s)
    ensures Inv(Execute(s, id))
  {
    assert |s.outcomes| !in s.running && |s.outcomes| !in s.started;
    ExecuteKeepsOrder(s, id);
    ExecuteKeepsFates(s, id);
  }

  lemma ExecuteKeepsOrder(s: State, id: TaskId)
    requires OrderInv(s) && (s.active < s.maxConcurrent ==> s.queue == [])
    ensures OrderInv(Execute(s, id))
  {
    var n := |s.outcomes|;
    if s.active < s.maxConcurrent { AscendingAppend(s.started, n); } else { AscendingEnqueue(s.queue, Entry(n, id)); }
  }

  lemma AscendingEnqueue(queue: seq<Entry>, e: Entry)
    requires AscendingQueue(queue) && forall q :: q in queue ==> q.ticket < e.ticket
    ensures AscendingQueue(queue + [e]) && forall q :: q in queue + [e] <==> q in queue || q == e
  {
    forall i, j | 0 <= i < j < |queue| + 1 ensures (queue + [e])[i].ticket < (queue + [e])[j].ticket {
      assert queue[i] in queue;
    }
  }

  lemma ExecuteKeepsFates(s: State, id: TaskId)
    requires OrderInv(s) && SettleInv(s)
    requires s.active < s.maxConcurrent ==> s.queue == []
    ensures SettleInv(Execute(s, id))
  {
    var s' := Execute(s, id);
    var n := |s.outcomes|;
    assert n !in s.running && n !in s.started && !IsQueued(s, n);
    forall t: nat | t < |s'.outcomes|
      ensures FateInv(s'.outcomes, t, t in s'.started, IsQueued(s', t) || t in s'.running)
    {
      ExecuteQueues(s, id, t);
      if t < n { assert FateInv(s.outcomes, t, t in s.started, IsQueued(s, t) || t in s.running); }
    }
  }

  lemma ExecuteQueues(s: State, id: TaskId, t: nat)
    requires s.active < s.maxConcurrent ==> s.queue == []
    ensures IsQueued(Execute(s, id), t) <==>
            IsQueued(s, t) || (s.active >= s.maxConcurrent && |s.queue| < s.maxQueued && t == |s.outcomes|)
  {
    var s' := Execute(s, id);
    var e := Entry(|s.outcomes|, id);
    assert forall q :: q in s'.queue <==>
      q in s.queue || (s.active >= s.maxConcurrent && |s.queue| < s.maxQueued && q == e);
    if IsQueued(s, t) {
      var q :| q in s.queue && q.ticket == t;
      assert q in s'.queue;
    }
    if s.active >= s.maxConcurrent && |s.queue| < s.maxQueued { assert e in s'.queue; }
  }

  lemma CancelKeepsInv(s: State, id: TaskId)
    requires Inv(s)
    ensures Inv(Cancel(s, id))
  {
    var i := FindIndex(s.queue, id);
    if i >= 0 {
      WithoutTaskFacts(s.queue, id);
      var s' := Cancel(s, id);
      var e := s.queue[i];
      assert e in s.queue && IsQueued(s, e.ticket);
      forall t: nat | t < |s'.outcomes|
        ensures FateInv(s'.outcomes, t, t in s'.started, IsQueued(s', t) || t in s'.running)
      {
        assert FateInv(s.outcomes, t, t in s.started, IsQueued(s, t) || t in s.running);
        QueuedAfterRemoval(s, s', e, t);
      }
    }
  }

  lemma QueuedAfterRemoval(s: State, s': State, e: Entry, t: nat)
    requires AscendingQueue(s.queue) && e in s.queue
    requires forall q :: q in s'.queue <==> q in s.queue && q != e
    ensures IsQueued(s', t) <==> IsQueued(s, t) && t != e.ticket
  {
    if IsQueued(s, t) && t != e.ticket {
      var q :| q in s.queue && q.ticket == t;
      assert q in s'.queue;
    }
  }

  lemma ReleaseKeepsInv(s: State, t: nat, ok: bool)
    requires OrderInv(s) && SettleInv(s) && t in s.running
    ensures OrderInv(Release(s, t, ok)) && SettleInv(Release(s, t, ok))
  {
    var r := Release(s, t, ok);
    assert forall u :: IsQueued(r, u) == IsQueued(s, u);
    forall u: nat | u < |r.outcomes|
      ensures FateInv(r.outcomes, u, u in r.started, IsQueued(r, u) || u in r.running)
    {
      assert FateInv(s.outcomes, u, u in s.started, IsQueued(s, u) || u in s.running);
      if u == t {
        assert s.outcomes[t] == [] && t in s.started;
        assert !IsQueued(s, t);
      }
    }
  }

  /** Where a ticket is queued once the head of the queue has been started. */
  lemma StartHeadQueues(s: State, t: nat)
    requires AscendingQueue(s.queue) && s.queue != []
    ensures var i := FindIndex(s.queue[1..], s.queue[0].taskId);
      IsQueued(Start(s.(queue := s.queue[1..]), s.queue[0]), t) <==>
      IsQueued(s, t) && t != s.queue[0].ticket && (i >= 0 ==> t != s.queue[1..][i].ticket)
  {
    var head, rest := s.queue[0], s.queue[1..];
    var s1 := s.(queue := rest);
    var s' := Start(s1, head);
    WithoutTaskFacts(rest, head.taskId);
    QueuedAfterRemoval(s, s1, head, t);
    var i := FindIndex(rest, head.taskId);
    if i >= 0 { QueuedAfterRemoval(s1, s', rest[i], t); }
  }

  lemma StartHeadKeepsInv(s: State)
    requires OrderInv(s) && SettleInv(s) && s.queue != []
    ensures OrderInv(Start(s.(queue := s.queue[1..]), s.queue[0]))
    ensures SettleInv(Start(s.(queue := s.queue[1..]), s.queue[0]))
  {
    var head, rest := s.queue[0], s.queue[1..];
    var s' := Start(s.(queue := rest), head);
    assert head in s.queue && IsQueued(s, head.ticket);
    WithoutTaskFacts(rest, head.taskId);
    AscendingAppend(s.started, head.ticket);
    StartHeadKeepsOrder(s);
    forall t: nat | t < |s'.outcomes|
      ensures FateInv(s'.outcomes, t, t in s'.started, IsQueued(s', t) || t in s'.running)
    {
      assert FateInv(s.outcomes, t, t in s.started, IsQueued(s, t) || t in s.running);
      StartHeadQueues(s, t);
      assert t in s'.started <==> t in s.started || t == head.ticket;
    }
  }

  /** The queue that is left when its head starts: part of the old one, and later than the head. */
  lemma RestIsLater(queue: seq<Entry>, e: Entry)
    requires AscendingQueue(queue) && queue != [] && e in WithoutTask(queue[1..], queue[0].taskId)
    ensures e in queue && queue[0].ticket < e.ticket
  {
    WithoutTaskFacts(queue[1..], queue[0].taskId);
    TailIsLater(queue, e);
  }

  lemma StartHeadKeepsOrder(s: State)
    requires OrderInv(s) && s.queue != []
    ensures OrderInv(Start(s.(queue := s.queue[1..]), s.queue[0]))
  {
    var head, rest := s.queue[0], s.queue[1..];
    var queue := WithoutTask(rest, head.taskId);
    assert head in s.queue;
    WithoutTaskFacts(rest, head.taskId);
    AscendingAppend(s.started, head.ticket);
    forall e | e in queue ensures e in s.queue && head.ticket < e.ticket { RestIsLater(s.queue, e); }
    NewOrder(s, head, queue);
  }

  lemma NewOrder(s: State, head: Entry, queue: seq<Entry>)
    requires OrderInv(s) && head in s.queue && AscendingQueue(queue) && Ascending(s.started + [head.ticket])
    requires forall e :: e in queue ==> e in s.queue && head.ticket < e.ticket
    ensures OrderInv(s.(queue := queue, active := s.active + 1,
                        running := s.running[head.ticket := head.taskId], started := s.started + [head.ticket]))
  {
    var started := s.started + [head.ticket];
    forall t, e | t in started && e in queue ensures t < e.ticket {
      if t != head.ticket { assert t in s.started && e in s.queue; }
    }
  }

  lemma TailIsLater(queue: seq<Entry>, e: Entry)
    requires AscendingQueue(queue) && queue != [] && e in queue[1..]
    ensures e in queue && queue[0].ticket < e.ticket
  {
    var j :| 0 <= j < |queue| - 1 && queue[1..][j] == e;
    assert queue[j + 1] == e;
  }

  lemma ReleaseFreesOne(s: State, t: nat, ok: bool)
    requires t in s.running
    ensures |Release(s, t, ok).running| == |s.running| - 1
  {
    var r := Release(s, t, ok);
    assert r.running.Keys == s.running.Keys - {t};
    assert |r.running| == |r.running.Keys|;
  }

  lemma FinishKeepsInv(s: State, t: nat, ok: bool)
    requires Inv(s) && t in s.running
    ensures Inv(Drain(Release(s, t, ok)))
  {
    FinishStartsTheHead(s, t, ok);
    ReleaseKeepsInv(s, t, ok);
    var r := Release(s, t, ok);
    ReleaseFreesOne(s, t, ok);
    if s.queue != [] {
      var head, rest := s.queue[0], s.queue[1..];
      StartHeadKeepsInv(r);
      WithoutTaskFacts(rest, head.taskId);
      assert head in s.queue;
      assert head.ticket !in r.running;
    }
  }

  lemma {:induction false} RunKeepsInv(s: State, evs: seq<Event>)
    requires Inv(s)
    ensures Inv(Run(s, evs))
    ensures Run(s, evs).maxConcurrent == s.maxConcurrent && Run(s, evs).maxQueued == s.maxQueued
    decreases |evs|
  {
    if evs != [] {
      StepKeepsInv(s, evs[0]);
      StepKeepsLimits(s, evs[0]);
      RunKeepsInv(Step(s, evs[0]), evs[1..]);
    }
  }

  lemma DrainKeepsLimits(s: State)
    ensures Drain(s).maxConcurrent == s.maxConcurrent && Drain(s).maxQueued == s.maxQueued
    decreases |s.queue|
  {
    if s.active < s.maxConcurrent && |s.queue| > 0 {
      DrainKeepsLimits(Start(s.(queue := s.queue[1..]), s.queue[0]));
    }
  }

  lemma StepKeepsLimits(s: State, ev: Event)
    ensures Step(s, ev).maxConcurrent == s.maxConcurrent && Step(s, ev).maxQueued == s.maxQueued
  {
    if ev.Settle? && ev.ticket in s.running { DrainKeepsLimits(Release(s, ev.ticket, ev.ok)); }
  }

  // ---------------------------------------------------------------------------
  // Whole runs
  // ---------------------------------------------------------------------------

  function RunFrom(maxConcurrentTasks: int, maxQueuedTasks: int, evs: seq<Event>): State {
    Run(Init(maxConcurrentTasks, maxQueuedTasks), evs)
  }

  /** Whatever is submitted, cancelled or finished in whatever order, with or without repeated
      ids: the counter is the number of running tasks, both limits hold, and a task only
      waits while every slot is taken. */
  lemma CapacityAndWorkConservation(maxConcurrentTasks: int, maxQueuedTasks: int, evs: seq<Event>)
    ensures var s := RunFrom(maxConcurrentTasks, maxQueuedTasks, evs);
      && s.active == |s.running| <= Max(1, maxConcurrentTasks)
      && |s.queue| <= Max(0, maxQueuedTasks)
      && (s.queue != [] ==> |s.running| == Max(1, maxConcurrentTasks))
  {
    RunKeepsInv(Init(maxConcurrentTasks, maxQueuedTasks), evs);
  }

  /** Tasks start in submission order: the start log ascends, and whoever waits was submitted
      after everybody who has started. */
  lemma FirstComeFirstServed(maxConcurrentTasks: int, maxQueuedTasks: int, evs: seq<Event>)
    ensures var s := RunFrom(maxConcurrentTasks, maxQueuedTasks, evs);
      && Ascending(s.started) && AscendingQueue(s.queue)
      && forall t, e :: t in s.started && e in s.queue ==> t < e.ticket
  {
    RunKeepsInv(Init(maxConcurrentTasks, maxQueuedTasks), evs);
  }

  /** No promise is settled twice; one that waits or runs is not settled; the delegate settles
      exactly those that were started; a rejected or cancelled task never starts. */
  lemma SettledAtMostOnce(maxConcurrentTasks: int, maxQueuedTasks: int, evs: seq<Event>, t: nat)
    requires t < |RunFrom(maxConcurrentTasks, maxQueuedTasks, evs).outcomes|
    ensures var s := RunFrom(maxConcurrentTasks, maxQueuedTasks, evs);
      && |s.outcomes[t]| <= 1
      && (IsQueued(s, t) ==> s.outcomes[t] == [] && t !in s.started)
      && (t in s.running ==> s.outcomes[t] == [] && t in s.started)
      && (t in s.started && t !in s.running ==> s.outcomes[t] == [Completed] || s.outcomes[t] == [Failed])
      && (s.outcomes[t] == [Overloaded] || s.outcomes[t] == [Canceled] ==> t !in s.started)
  {
    RunKeepsInv(Init(maxConcurrentTasks, maxQueuedTasks), evs);
    var s := RunFrom(maxConcurrentTasks, maxQueuedTasks, evs);
    assert FateInv(s.outcomes, t, t in s.started, IsQueued(s, t) || t in s.running);
  }

  // ---------------------------------------------------------------------------
  // What each promise receives
  // ---------------------------------------------------------------------------

  /** The first queued entry with this task id is that of ticket `t`. */
  ghost predicate IsFirstQueued(queue: seq<Entry>, taskId: TaskId, t: nat) {
    exists k :: 0 <= k < |queue| && queue[k] == Entry(t, taskId) && forall j :: 0 <= j < k ==> queue[j].taskId != taskId
  }

  /** The answer that event `ev` in state `s` gives to the caller with ticket `t`: overloaded, if
      its submission finds all slots and all queue places taken; canceled, if its id is named
      while it is the first queued entry with it; what the delegate says, if it runs. */
  ghost function Answer(s: State, ev: Event, t: nat): (o: Option<Outcome>) {
    match ev
    case Submit(id) =>
      if t == |s.outcomes| && |s.running| == s.maxConcurrent && |s.queue| == s.maxQueued then Some(Overloaded) else None
    case CancelTask(id) => if IsFirstQueued(s.queue, id, t) then Some(Canceled) else None
    case Settle(u, ok) => if u == t && t in s.running then Some(if ok then Completed else Failed) else None
  }

  /** What the caller with ticket `t` has received so far; nothing before the ticket is issued. */
  function ReceivedBy(s: State, t: nat): seq<Outcome> { if t < |s.outcomes| then s.outcomes[t] else [] }

  lemma FindIsFirst(queue: seq<Entry>, taskId: TaskId, t: nat)
    ensures IsFirstQueued(queue, taskId, t)
      <==> FindIndex(queue, taskId) >= 0 && queue[FindIndex(queue, taskId)].ticket == t
  {
    var i := FindIndex(queue, taskId);
    if IsFirstQueued(queue, taskId, t) {
      var k :| 0 <= k < |queue| && queue[k] == Entry(t, taskId) && forall j :: 0 <= j < k ==> queue[j].taskId != taskId;
      assert i == k;
    }
    if i >= 0 && queue[i].ticket == t { assert queue[i] == Entry(t, taskId); }
  }

  lemma DrainDeliversNothing(s: State)
    ensures Drain(s).outcomes == s.outcomes
    decreases |s.queue|
  {
    if s.active < s.maxConcurrent && |s.queue| > 0 {
      DrainDeliversNothing(Start(s.(queue := s.queue[1..]), s.queue[0]));
    }
  }

  /** Between `s` and `s'`, the caller with ticket `t` receives exactly this answer. */
  ghost predicate Receives(s: State, s': State, t: nat, answer: Option<Outcome>) {
    && t < |s'.outcomes|
    && if answer.Some? then s'.outcomes[t] == [answer.value] && ReceivedBy(s, t) == []
       else s'.outcomes[t] == ReceivedBy(s, t)
  }

  /** One event delivers exactly its answer, and nothing to anybody else. */
  lemma StepDelivers(s: State, ev: Event, t: nat)
    requires Inv(s) && t < |Step(s, ev).outcomes|
    ensures Receives(s, Step(s, ev), t, Answer(s, ev, t))
  {
    match ev
    case Submit(id) => SubmitDelivers(s, id, t);
    case CancelTask(id) =>
      var i := FindIndex(s.queue, id);
      if i >= 0 { QueuedIsUnanswered(s, i); }
      CancelDelivers(s, id, t);
    case Settle(u, ok) => SettleDelivers(s, u, ok, t);
  }

  lemma SubmitDelivers(s: State, id: TaskId, t: nat)
    requires Inv(s) && t < |Execute(s, id).outcomes|
    ensures Receives(s, Execute(s, id), t, Answer(s, Submit(id), t))
  {
    var none: seq<Outcome> := [];
    assert none + [Overloaded] == [Overloaded];
  }

  lemma QueuedIsUnanswered(s: State, i: nat)
    requires Inv(s) && i < |s.queue|
    ensures s.queue[i].ticket < |s.outcomes| && s.outcomes[s.queue[i].ticket] == []
  {
    var e := s.queue[i];
    assert e in s.queue && IsQueued(s, e.ticket);
    assert FateInv(s.outcomes, e.ticket, e.ticket in s.started, true);
  }

  lemma CancelDelivers(s: State, id: TaskId, t: nat)
    requires t < |Cancel(s, id).outcomes|
    requires var i := FindIndex(s.queue, id);
      i >= 0 ==> s.queue[i].ticket < |s.outcomes| && s.outcomes[s.queue[i].ticket] == []
    ensures Receives(s, Cancel(s, id), t, Answer(s, CancelTask(id), t))
  {
    FindIsFirst(s.queue, id, t);
    var none: seq<Outcome> := [];
    assert none + [Canceled] == [Canceled];
  }

  lemma SettleDelivers(s: State, u: nat, ok: bool, t: nat)
    requires Inv(s) && t < |Step(s, Settle(u, ok)).outcomes|
    ensures Receives(s, Step(s, Settle(u, ok)), t, Answer(s, Settle(u, ok), t))
  {
    if u in s.running {
      DrainDeliversNothing(Release(s, u, ok));
      assert u in s.started && u < |s.outcomes|;
      assert FateInv(s.outcomes, u, true, true);
      var answer := if ok then Completed else Failed;
      assert s.outcomes[u] + [answer] == [answer];
    }
  }

  lemma {:induction false} RunSnoc(s: State, evs: seq<Event>, ev: Event)
    ensures Run(s, evs + [ev]) == Step(Run(s, evs), ev)
    decreases |evs|
  {
    if evs == [] {
      assert [] + [ev] == [ev] && [ev][1..] == [];
    } else {
      assert (evs + [ev])[0] == evs[0] && (evs + [ev])[1..] == evs[1..] + [ev];
      RunSnoc(Step(s, evs[0]), evs[1..], ev);
    }
  }

  /** Event `k` of the run answers ticket `t` with `o`. */
  ghost predicate AnsweredAt(s: State, evs: seq<Event>, k: nat, t: nat, o: Outcome) {
    k < |evs| && Answer(Run(s, evs[..k]), evs[k], t) == Some(o)
  }

  ghost predicate IsAnswered(s: State, evs: seq<Event>, t: nat, o: Outcome) { exists k :: AnsweredAt(s, evs, k, t, o) }

  lemma AnsweredByLast(s: State, init: seq<Event>, last: Event, t: nat, o: Outcome)
    ensures IsAnswered(s, init + [last], t, o) <==> IsAnswered(s, init, t, o) || Answer(Run(s, init), last, t) == Some(o)
  {
    var evs := init + [last];
    assert evs[..|init|] == init;
    forall k: nat | k < |init| ensures AnsweredAt(s, evs, k, t, o) <==> AnsweredAt(s, init, k, t, o) {
      assert evs[..k] == init[..k];
    }
    if Answer(Run(s, init), last, t) == Some(o) { assert AnsweredAt(s, evs, |init|, t, o); }
    if k: nat :| AnsweredAt(s, init, k, t, o) { assert AnsweredAt(s, evs, k, t, o); }
  }

  ghost predicate HasReceived(s: State, t: nat, o: Outcome) { t < |s.outcomes| && s.outcomes[t] == [o] }

  lemma StepReceives(s: State, ev: Event, t: nat, o: Outcome)
    requires Inv(s)
    ensures HasReceived(Step(s, ev), t, o) <==> HasReceived(s, t, o) || Answer(s, ev, t) == Some(o)
  {
    StepGrows(s, ev);
    if t < |Step(s, ev).outcomes| {
      StepDelivers(s, ev, t);
    } else {
      NoAnswerBeforeIssue(s, ev, t);
    }
  }

  lemma {:induction false} AnsweredIffFrom(s: State, evs: seq<Event>, t: nat, o: Outcome)
    requires Inv(s) && s.outcomes == []
    ensures HasReceived(Run(s, evs), t, o) <==> IsAnswered(s, evs, t, o)
    decreases |evs|
  {
    if evs != [] {
      var init, last := evs[..|evs| - 1], evs[|evs| - 1];
      assert evs == init + [last];
      RunSnoc(s, init, last);
      RunKeepsInv(s, init);
      AnsweredIffFrom(s, init, t, o);
      StepReceives(Run(s, init), last, t, o);
      AnsweredByLast(s, init, last, t, o);
    }
  }

  lemma StepGrows(s: State, ev: Event)
    ensures |s.outcomes| <= |Step(s, ev).outcomes|
  {
    if ev.Settle? && ev.ticket in s.running { DrainDeliversNothing(Release(s, ev.ticket, ev.ok)); }
  }

  lemma NoAnswerBeforeIssue(s: State, ev: Event, t: nat)
    requires Inv(s) && t >= |Step(s, ev).outcomes|
    ensures Answer(s, ev, t).None?
  {
    StepGrows(s, ev);
  }

  /** Over every run, what a promise has received: exactly the one answer that the events gave it,
      each in the state it met. */
  lemma AnsweredIff(maxConcurrentTasks: int, maxQueuedTasks: int, evs: seq<Event>, t: nat, o: Outcome)
    requires t < |RunFrom(maxConcurrentTasks, maxQueuedTasks, evs).outcomes|
    ensures RunFrom(maxConcurrentTasks, maxQueuedTasks, evs).outcomes[t] == [o]
      <==> exists k :: AnsweredAt(Init(maxConcurrentTasks, maxQueuedTasks), evs, k, t, o)
  {
    AnsweredIffFrom(Init(maxConcurrentTasks, maxQueuedTasks), evs, t, o);
  }

  // ---------------------------------------------------------------------------
  // Conservation: exactly which entries are lost
  // ---------------------------------------------------------------------------

  /** Tickets that are neither queued nor running and whose promise nobody has settled. */
  ghost predicate IsLost(s: State, t: nat) {
    t < |s.outcomes| && s.outcomes[t] == [] && !IsQueued(s, t) && t !in s.running
  }

  /** `runEntry` deletes by task id, so starting the head of the queue also drops the next
      queued entry with the same id. */
  predicate Drops(s: State, ev: Event, t: nat) {
    && ev.Settle? && ev.ticket in s.running && |s.queue| > 1
    && var i := FindIndex(s.queue[1..], s.queue[0].taskId); i >= 0 && s.queue[1..][i].ticket == t
  }

  lemma StepLosesExactly(s: State, ev: Event, t: nat)
    requires Inv(s)
    ensures IsLost(Step(s, ev), t) <==> IsLost(s, t) || Drops(s, ev, t)
  {
    match ev
    case Submit(id) =>
      var s' := Step(s, ev);
      var e := Entry(|s.outcomes|, id);
      assert forall q :: q in s.queue ==> q in s'.queue;
      if e in s'.queue { assert IsQueued(s', e.ticket); }
    case CancelTask(id) =>
      var i := FindIndex(s.queue, id);
      if i >= 0 {
        WithoutTaskFacts(s.queue, id);
        assert s.queue[i] in s.queue && IsQueued(s, s.queue[i].ticket);
        QueuedAfterRemoval(s, Cancel(s, id), s.queue[i], t);
      }
    case Settle(u, ok) =>
      if u in s.running { FinishLosesExactly(s, u, ok, t); }
  }

  lemma FinishLosesExactly(s: State, u: nat, ok: bool, t: nat)
    requires Inv(s) && u in s.running
    ensures IsLost(Drain(Release(s, u, ok)), t) <==> IsLost(s, t) || Drops(s, Settle(u, ok), t)
  {
    FinishStartsTheHead(s, u, ok);
    var r := Release(s, u, ok);
    assert IsQueued(r, t) == IsQueued(s, t);
    if s.queue != [] {
      StartHeadQueues(r, t);
      assert s.queue[0] in s.queue && IsQueued(s, s.queue[0].ticket);
      var i := FindIndex(s.queue[1..], s.queue[0].taskId);
      if i >= 0 {
        var e := s.queue[i + 1];
        assert e in s.queue && IsQueued(s, e.ticket) && s.queue[0].ticket < e.ticket;
        assert FateInv(s.outcomes, e.ticket, e.ticket in s.started, true);
      }
    }
  }

  /** Some step of the run drops `t`. */
  predicate DropsInRun(s: State, evs: seq<Event>, t: nat)
    decreases |evs|
  {
    evs != [] && (Drops(s, evs[0], t) || DropsInRun(Step(s, evs[0]), evs[1..], t))
  }

  lemma {:induction false} RunLosesExactly(s: State, evs: seq<Event>, t: nat)
    requires Inv(s)
    ensures IsLost(Run(s, evs), t) <==> IsLost(s, t) || DropsInRun(s, evs, t)
    decreases |evs|
  {
    if evs != [] {
      StepKeepsInv(s, evs[0]);
      StepLosesExactly(s, evs[0], t);
      RunLosesExactly(Step(s, evs[0]), evs[1..], t);
    }
  }

  /** Over every run, a submitted task ends up in exactly one place (queued, running, settled)
      if and only if no finishing task ever starts a head whose id is queued again. */
  lemma ConservedUnlessDropped(maxConcurrentTasks: int, maxQueuedTasks: int, evs: seq<Event>, t: nat)
    requires t < |RunFrom(maxConcurrentTasks, maxQueuedTasks, evs).outcomes|
    ensures var s := RunFrom(maxConcurrentTasks, maxQueuedTasks, evs);
      IsQueued(s, t) || t in s.running || |s.outcomes[t]| == 1
      <==> !DropsInRun(Init(maxConcurrentTasks, maxQueuedTasks), evs, t)
  {
    RunLosesExactly(Init(maxConcurrentTasks, maxQueuedTasks), evs, t);
    SettledAtMostOnce(maxConcurrentTasks, maxQueuedTasks, evs, t);
  }

  lemma RunOne(s: State, ev: Event, rest: seq<Event>)
    ensures Run(s, [ev] + rest) == Run(Step(s, ev), rest)
  {
    assert ([ev] + rest)[1..] == rest;
  }

  // One slot; task "a" takes it, and two tasks "b" queue up.

  function OneSubmitted(): State {
    State(1, 2, [], map["a" := Entry(0, "a")], 1, map[0 := "a"], [0], [[]])
  }

  function TwoSubmitted(): State {
    OneSubmitted().(queue := [Entry(1, "b")], pending := map["a" := Entry(0, "a"), "b" := Entry(1, "b")], outcomes := [[], []])
  }

  function ThreeSubmitted(): State {
    OneSubmitted().(queue := [Entry(1, "b"), Entry(2, "b")],
                    pending := map["a" := Entry(0, "a"), "b" := Entry(2, "b")], outcomes := [[], [], []])
  }

  lemma FirstSubmit()
    ensures Step(Init(1, 2), Submit("a")) == OneSubmitted()
  {
  }

  lemma SecondSubmit()
    ensures Step(OneSubmitted(), Submit("b")) == TwoSubmitted()
  {
    assert OneSubmitted().pending["b" := Entry(1, "b")] == TwoSubmitted().pending;
  }

  lemma ThirdSubmit()
    ensures Step(TwoSubmitted(), Submit("b")) == ThreeSubmitted()
  {
    assert TwoSubmitted().pending["b" := Entry(2, "b")] == ThreeSubmitted().pending;
    assert TwoSubmitted().queue + [Entry(2, "b")] == ThreeSubmitted().queue;
    assert TwoSubmitted().outcomes + [[]] == ThreeSubmitted().outcomes;
  }

  lemma ThreeSubmits()
    ensures Run(Init(1, 2), [Submit("a")] + ([Submit("b")] + [Submit("b")])) == ThreeSubmitted()
  {
    FirstSubmit();
    SecondSubmit();
    ThirdSubmit();
    RunOne(Init(1, 2), Submit("a"), [Submit("b")] + [Submit("b")]);
    RunOne(OneSubmitted(), Submit("b"), [Submit("b")]);
    assert [Submit("b")] + [] == [Submit("b")];
    RunOne(TwoSubmitted(), Submit("b"), []);
  }

  /** A repeated id does lose a task: the third promise below is never settled. */
  lemma RepeatedIdLosesTheSecondEntry()
    ensures var s := Run(Init(1, 2), [Submit("a")] + ([Submit("b")] + [Submit("b")]));
      s == ThreeSubmitted() && IsLost(Step(s, Settle(0, true)), 2)
  {
    ThreeSubmits();
    var s := ThreeSubmitted();
    RunKeepsInv(Init(1, 2), [Submit("a")] + ([Submit("b")] + [Submit("b")]));
    assert s.queue[1..] == [Entry(2, "b")];
    assert Drops(s, Settle(0, true), 2);
    StepLosesExactly(s, Settle(0, true), 2);
  }

  // ---------------------------------------------------------------------------
  // Runs in which outstanding ids are distinct
  // ---------------------------------------------------------------------------

  /** Every submission uses an id that `pendingByTaskId` does not hold at that moment. */
  predicate OutstandingIdsDistinct(s: State, evs: seq<Event>)
    decreases |evs|
  {
    evs != [] ==>
      && (evs[0].Submit? ==> evs[0].taskId !in s.pending)
      && OutstandingIdsDistinct(Step(s, evs[0]), evs[1..])
  }

  /** `pendingByTaskId` holds exactly the queued and the running entries. */
  ghost predicate PendingInv(s: State) {
    && (forall e :: e in s.queue ==> e.taskId in s.pending && s.pending[e.taskId] == e)
    && (forall t :: t in s.running ==> s.running[t] in s.pending && s.pending[s.running[t]] == Entry(t, s.running[t]))
    && (forall id :: id in s.pending ==> var e := s.pending[id];
          e.taskId == id && (e in s.queue || (e.ticket in s.running && s.running[e.ticket] == id)))
  }

  lemma StepKeepsPending(s: State, ev: Event)
    requires Inv(s) && PendingInv(s)
    requires ev.Submit? ==> ev.taskId !in s.pending
    ensures PendingInv(Step(s, ev)) && forall t :: !Drops(s, ev, t)
  {
    match ev
    case Submit(id) => SubmitKeepsPending(s, id);
    case CancelTask(id) => CancelKeepsPending(s, id);
    case Settle(t, ok) => if t in s.running { FinishKeepsPending(s, t, ok); }
  }

  lemma SubmitKeepsPending(s: State, id: TaskId)
    requires Inv(s) && PendingInv(s) && id !in s.pending
    ensures PendingInv(Execute(s, id))
  {
    assert |s.outcomes| !in s.running;
    var e := Entry(|s.outcomes|, id);
    if s.active < s.maxConcurrent {
      assert s.queue == [];
    } else if |s.queue| < s.maxQueued {
      NewPending(s, e);
    } else {
      assert s.pending[id := e] - {id} == s.pending;
    }
  }

  lemma NewPending(s: State, e: Entry)
    requires PendingInv(s) && e.taskId !in s.pending
    ensures PendingInv(s.(queue := s.queue + [e], pending := s.pending[e.taskId := e], outcomes := s.outcomes + [[]]))
  {
    var q := s.queue + [e];
    assert forall x :: x in q <==> x in s.queue || x == e;
  }

  lemma CancelKeepsPending(s: State, id: TaskId)
    requires OrderInv(s) && PendingInv(s)
    ensures PendingInv(Cancel(s, id))
  {
    var i := FindIndex(s.queue, id);
    if i >= 0 {
      WithoutTaskFacts(s.queue, id);
      assert s.queue[i] in s.queue && s.pending[id] == s.queue[i];
      assert s.queue[i].ticket !in s.running;
    }
  }

  lemma ReleaseKeepsPending(s: State, t: nat, ok: bool)
    requires OrderInv(s) && PendingInv(s) && t in s.running
    ensures PendingInv(Release(s, t, ok))
  {
    assert t in s.started;
    assert forall e :: e in s.queue ==> e.ticket != t;
  }

  lemma HeadIdIsNotQueuedAgain(s: State)
    requires OrderInv(s) && PendingInv(s) && s.queue != []
    ensures WithoutTask(s.queue[1..], s.queue[0].taskId) == s.queue[1..]
    ensures FindIndex(s.queue[1..], s.queue[0].taskId) < 0
  {
    var head, rest := s.queue[0], s.queue[1..];
    assert head in s.queue;
    forall j | 0 <= j < |rest| ensures rest[j].taskId != head.taskId {
      assert rest[j] == s.queue[j + 1] && s.queue[j + 1] in s.queue;
      assert s.pending[rest[j].taskId] == rest[j] && rest[j] != head;
    }
  }

  lemma FinishKeepsPending(s: State, t: nat, ok: bool)
    requires Inv(s) && PendingInv(s) && t in s.running
    ensures PendingInv(Drain(Release(s, t, ok)))
    ensures forall u :: !Drops(s, Settle(t, ok), u)
  {
    FinishStartsTheHead(s, t, ok);
    ReleaseKeepsPending(s, t, ok);
    if s.queue != [] {
      HeadIdIsNotQueuedAgain(s);
      assert s.queue[0] in s.queue && s.queue[0].ticket !in s.running;
      HeadMovesToRunning(Release(s, t, ok), s.queue[0], s.queue[1..]);
    }
  }

  lemma HeadMovesToRunning(r: State, head: Entry, rest: seq<Entry>)
    requires PendingInv(r) && r.queue == [head] + rest && WithoutTask(rest, head.taskId) == rest
    requires head.ticket !in r.running
    ensures PendingInv(Start(r.(queue := rest), head))
  {
    var s' := Start(r.(queue := rest), head);
    assert forall e :: e in r.queue <==> e == head || e in rest;
    assert head in r.queue;
    assert s'.queue == rest;
  }

  lemma {:induction false} DistinctIdsLoseNothing(s: State, evs: seq<Event>)
    requires Inv(s) && PendingInv(s) && OutstandingIdsDistinct(s, evs)
    ensures PendingInv(Run(s, evs)) && forall t :: !DropsInRun(s, evs, t)
    decreases |evs|
  {
    if evs != [] {
      StepKeepsInv(s, evs[0]);
      StepKeepsPending(s, evs[0]);
      DistinctIdsLoseNothing(Step(s, evs[0]), evs[1..]);
    }
  }

  /** With distinct outstanding ids every submitted task is in exactly one of queued, running
      or settled once, and the id map holds exactly the queued and running ones. */
  lemma DistinctIdsConserveEveryTask(maxConcurrentTasks: int, maxQueuedTasks: int, evs: seq<Event>, t: nat)
    requires OutstandingIdsDistinct(Init(maxConcurrentTasks, maxQueuedTasks), evs)
    requires t < |RunFrom(maxConcurrentTasks, maxQueuedTasks, evs).outcomes|
    ensures var s := RunFrom(maxConcurrentTasks, maxQueuedTasks, evs);
      && PendingInv(s)
      && (|s.outcomes[t]| == 1 <==> !IsQueued(s, t) && t !in s.running)
      && !(IsQueued(s, t) && t in s.running)
  {
    DistinctIdsLoseNothing(Init(maxConcurrentTasks, maxQueuedTasks), evs);
    ConservedUnlessDropped(maxConcurrentTasks, maxQueuedTasks, evs, t);
    SettledAtMostOnce(maxConcurrentTasks, maxQueuedTasks, evs, t);
  }

  // ---------------------------------------------------------------------------
  // The class
  // ---------------------------------------------------------------------------

  class QueueingAgentExecutor {
    const maxConcurrentTasks: int
    const maxQueuedTasks: int
    var queue: seq<Entry>
    var pendingByTaskId: map<TaskId, Entry>
    var activeTasks: int
    /** Names the promise the next `execute` call returns. */
    var nextTicket: nat
    ghost var running: map<nat, TaskId>
    ghost var started: seq<nat>
    ghost var outcomes: seq<seq<Outcome>>

    ghost predicate Valid() reads this { nextTicket == |outcomes| }

    ghost function View(): State reads this {
      State(maxConcurrentTasks, maxQueuedTasks, queue, pendingByTaskId, activeTasks, running, started, outcomes)
    }

    constructor (maxConcurrentTasks: int, maxQueuedTasks: int)
      ensures Valid() && View() == Init(maxConcurrentTasks, maxQueuedTasks)
    {
      this.maxConcurrentTasks := Max(1, maxConcurrentTasks);
      this.maxQueuedTasks := Max(0, maxQueuedTasks);
      queue, pendingByTaskId, activeTasks, nextTicket := [], map[], 0, 0;
      running, started, outcomes := map[], [], [];
    }

    method Execute(taskId: TaskId) returns (ticket: nat)
      requires Valid()
      modifies this
      ensures Valid() && View() == Step(old(View()), Submit(taskId))
      ensures ticket == |old(View()).outcomes|
    {
      ticket := nextTicket;
      var entry := Entry(ticket, taskId);
      nextTicket, outcomes := nextTicket + 1, outcomes + [[]];
      pendingByTaskId := pendingByTaskId[taskId := entry];
      if activeTasks < maxConcurrentTasks {
        RunEntry(entry);
        return;
      }
      if |queue| >= maxQueuedTasks {
        pendingByTaskId := pendingByTaskId - {taskId};
        outcomes := Deliver(outcomes, ticket, Overloaded);
        return;
      }
      queue := queue + [entry];
    }

    /** Answers whether the task was still queued; if not, the caller goes to the delegate. */
    method CancelQueuedTask(taskId: TaskId) returns (wasQueued: bool)
      requires Valid()
      modifies this
      ensures Valid() && View() == Step(old(View()), CancelTask(taskId))
      ensures wasQueued <==> exists e :: e in old(queue) && e.taskId == taskId
    {
      var queuedIndex := FindIndex(queue, taskId);
      if queuedIndex != -1 {
        var entry := queue[queuedIndex];
        queue := RemoveAt(queue, queuedIndex);
        pendingByTaskId := pendingByTaskId - {taskId};
        outcomes := Deliver(outcomes, entry.ticket, Canceled);
        return true;
      }
      return false;
    }

    /** `runEntry` up to `await this.delegate.execute(...)` */
    method RunEntry(entry: Entry)
      modifies this
      ensures View() == Start(old(View()), entry) && nextTicket == old(nextTicket)
    {
      QueueDelete(entry.taskId);
      activeTasks := activeTasks + 1;
      running, started := running[entry.ticket := entry.taskId], started + [entry.ticket];
    }

    /** `runEntry` from the delegate's settlement to the end */
    method ResumeEntry(entry: Entry, ok: bool)
      requires Valid()
      requires entry.ticket in running && running[entry.ticket] == entry.taskId
      modifies this
      ensures Valid() && View() == Step(old(View()), Settle(entry.ticket, ok))
    {
      outcomes := Deliver(outcomes, entry.ticket, if ok then Completed else Failed);
      pendingByTaskId := pendingByTaskId - {entry.taskId};
      activeTasks := Max(0, activeTasks - 1);
      running := running - {entry.ticket};
      DrainQueue();
    }

    method DrainQueue()
      modifies this
      ensures View() == Drain(old(View())) && nextTicket == old(nextTicket)
      ensures |outcomes| == old(|outcomes|)
    {
      while activeTasks < maxConcurrentTasks && |queue| > 0
        invariant Drain(View()) == Drain(old(View()))
        invariant nextTicket == old(nextTicket) && outcomes == old(outcomes)
        decreases |queue|
      {
        var next := queue[0];
        queue := queue[1..];
        RunEntry(next);
      }
    }

    method QueueDelete(taskId: TaskId)
      modifies this`queue
      ensures queue == WithoutTask(old(queue), taskId)
    {
      var index := FindIndex(queue, taskId);
      if index != -1 {
        queue := RemoveAt(queue, index);
      }
    }
  }
}
