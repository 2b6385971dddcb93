/** The request multiplexer of one gateway socket (`GatewayRpcConnection` in src/executor.ts).

    Requests are numbered; a number stands for the random id of the frame, which is assumed
    fresh.  Frames, timer callbacks and socket events arrive in any order. */
module RpcConnection {
  import opened Common

  datatype Outcome =
    | Resolved(payload: string)
    | ServerError(message: string)
    | TimedOut
    | SendFailed
    | NotConnected
    | ConnectionClosed

  datatype Pending = Pending(id: nat, method_: string, expectFinal: bool)

  /** A parsed message; whatever the parser rejects is `Unusable`. */
  datatype Frame =
    | Unusable
    | AgentEvent(hasContent: bool, eventPayload: string)
    | Response(id: nat, ok: bool, accepted: bool, payload: string, message: string)

  /** `open`: the socket's ready state; `attached`: our listeners are on it. */
  datatype Link = Link(open: bool, attached: bool)

  /** `pending` keeps insertion order; `timers` are the armed ones; `outcomes` are what each
      request's promise has received. */
  datatype State = State(
    link: Link,
    pending: seq<Pending>,
    timers: set<nat>,
    outcomes: seq<seq<Outcome>>)

  const INIT := State(Link(false, false), [], {}, [])

  datatype Event =
    | Connected
    | SocketStalls
    | Request(method_: string, expectFinal: bool, sendSucceeds: bool)
    | Message(frame: Frame)
    | TimerFires(id: nat)
    | SocketCloses
    | Close

  function Deliver(outcomes: seq<seq<Outcome>>, id: nat, o: Outcome): seq<seq<Outcome>> {
    if id < |outcomes| then outcomes[id := outcomes[id] + [o]] else outcomes
  }

  function IndexOf(pending: seq<Pending>, id: nat): (i: int)
    ensures -1 <= i < |pending|
    ensures i >= 0 ==> pending[i].id == id
    ensures i < 0 ==> forall j :: 0 <= j < |pending| ==> pending[j].id != id
  {
    if pending == [] then -1
    else if pending[0].id == id then 0
    else var i := IndexOf(pending[1..], id); if i < 0 then -1 else i + 1
  }

  function Without(pending: seq<Pending>, id: nat): seq<Pending> {
    var i := IndexOf(pending, id);
    if i < 0 then pending else pending[..i] + pending[i + 1..]
  }

  /** Delete the entry, clear its timer, settle its promise. */
  function Settle(s: State, id: nat, o: Outcome): State {
    s.(pending := Without(s.pending, id), timers := s.timers - {id}, outcomes := Deliver(s.outcomes, id, o))
  }

  function RejectAll(s: State, o: Outcome): State
    decreases |s.pending|
  {
    if s.pending == [] then s
    else
      RejectAll(s.(pending := s.pending[1..],
                   timers := s.timers - {s.pending[0].id},
                   outcomes := Deliver(s.outcomes, s.pending[0].id, o)), o)
  }

  predicate IsAgentFinal(p: Pending) { p.expectFinal && p.method_ == "agent" }

  function AgentFinals(pending: seq<Pending>): seq<Pending> {
    if pending == [] then []
    else (if IsAgentFinal(pending[0]) then [pending[0]] else []) + AgentFinals(pending[1..])
  }

  function DoRequest(s: State, method_: string, expectFinal: bool, sendSucceeds: bool): State {
    var id := |s.outcomes|;
    var s' := s.(outcomes := s.outcomes + [[]]);
    if !(s.link.attached && s.link.open) then s'.(outcomes := Deliver(s'.outcomes, id, NotConnected))
    else
      var s'' := s'.(timers := s.timers + {id}, pending := s.pending + [Pending(id, method_, expectFinal)]);
      if sendSucceeds then s'' else Settle(s'', id, SendFailed)
  }

  function HandleMessage(s: State, frame: Frame): State {
    match frame
    case Unusable => s
    case AgentEvent(hasContent, payload) =>
      var finals := AgentFinals(s.pending);
      if hasContent && |finals| == 1 then Settle(s, finals[0].id, Resolved(payload)) else s
    case Response(id, ok, accepted, payload, message) =>
      var i := IndexOf(s.pending, id);
      if i < 0 || (s.pending[i].expectFinal && accepted) then s
      else Settle(s, id, if ok then Resolved(payload) else ServerError(message))
  }

  /** A message or a close event arrives only while the listeners are attached, and a timer
      only fires while it is armed. */
  function Step(s: State, ev: Event): State {
    match ev
    case Connected => s.(link := Link(true, true))
    case SocketStalls => s.(link := s.link.(open := false))
    case Request(m, f, ok) => DoRequest(s, m, f, ok)
    case Message(frame) => if s.link.attached then HandleMessage(s, frame) else s
    case TimerFires(id) => if id in s.timers then Settle(s, id, TimedOut) else s
    case SocketCloses => if s.link.attached then RejectAll(s.(link := s.link.(open := false)), ConnectionClosed) else s
    case Close => RejectAll(s.(link := Link(false, false)), ConnectionClosed)
  }

  function Run(s: State, evs: seq<Event>): State
    decreases |evs|
  {
    if evs == [] then s else Run(Step(s, evs[0]), evs[1..])
  }

  // ---------------------------------------------------------------------------
  // Every request is pending with an armed timer, or settled once
  // ---------------------------------------------------------------------------

  ghost predicate IsPending(s: State, id: nat) { exists p :: p in s.pending && p.id == id }

  ghost predicate Inv(s: State) {
    && (forall i, j :: 0 <= i < j < |s.pending| ==> s.pending[i].id != s.pending[j].id)
    && (forall p :: p in s.pending ==> p.id < |s.outcomes|)
    && (forall id :: id in s.timers <==> IsPending(s, id))
    && (forall id: nat {:trigger s.outcomes[id]} :: id < |s.outcomes| ==>
          |s.outcomes[id]| == if id in s.timers then 0 else 1)
  }

  lemma WithoutFacts(pending: seq<Pending>, id: nat)
    requires forall i, j :: 0 <= i < j < |pending| ==> pending[i].id != pending[j].id
    ensures var q := Without(pending, id);
      && (forall i, j :: 0 <= i < j < |q| ==> q[i].id != q[j].id)
      && (forall p :: p in q <==> p in pending && p.id != id)
  {
    var i := IndexOf(pending, id);
    var q := Without(pending, id);
    if i >= 0 {
      forall p | p in pending && p.id != id ensures p in q {
        var j :| 0 <= j < |pending| && pending[j] == p;
        assert if j < i then q[j] == p else q[j - 1] == p;
      }
    }
  }

  lemma SettleKeepsInv(s: State, id: nat, o: Outcome)
    requires Inv(s) && id in s.timers
    ensures Inv(Settle(s, id, o))
    ensures Settle(s, id, o).outcomes == s.outcomes[id := [o]]
  {
    WithoutFacts(s.pending, id);
    assert IsPending(s, id);
    assert id < |s.outcomes| && s.outcomes[id] + [o] == [o];
    var s' := Settle(s, id, o);
    forall k ensures k in s'.timers <==> IsPending(s', k) {
      assert k in s.timers <==> IsPending(s, k);
      if IsPending(s, k) && k != id {
        var p :| p in s.pending && p.id == k;
        assert p in s'.pending;
      }
    }
  }

  lemma RejectAllStep(s: State, o: Outcome)
    requires Inv(s) && s.pending != []
    ensures s.pending[0].id in s.timers
    ensures RejectAll(s, o) == RejectAll(Settle(s, s.pending[0].id, o), o)
    ensures Settle(s, s.pending[0].id, o).pending == s.pending[1..]
  {
    var id := s.pending[0].id;
    assert s.pending[0] in s.pending && IsPending(s, id);
    assert Without(s.pending, id) == s.pending[1..];
  }

  /** What `rejectAllPending` leaves behind. */
  ghost predicate AllRejected(s: State, s': State, o: Outcome) {
    && s'.pending == [] && s'.timers == {} && s'.link == s.link
    && |s'.outcomes| == |s.outcomes|
    && forall id: nat {:trigger s'.outcomes[id]} :: id < |s.outcomes| ==>
         s'.outcomes[id] == if id in s.timers then [o] else s.outcomes[id]
  }

  lemma {:induction false} RejectAllSettlesEveryPending(s: State, o: Outcome)
    requires Inv(s)
    ensures Inv(RejectAll(s, o)) && AllRejected(s, RejectAll(s, o), o)
    decreases |s.pending|
  {
    if s.pending == [] {
      assert forall id :: id in s.timers ==> IsPending(s, id);
    } else {
      var id := s.pending[0].id;
      RejectAllStep(s, o);
      SettleKeepsInv(s, id, o);
      var s1 := Settle(s, id, o);
      RejectAllSettlesEveryPending(s1, o);
      AllRejectedCompose(s, id, RejectAll(s1, o), o);
    }
  }

  lemma AllRejectedCompose(s: State, id: nat, s': State, o: Outcome)
    requires id in s.timers && id < |s.outcomes|
    requires Settle(s, id, o).outcomes == s.outcomes[id := [o]]
    requires AllRejected(Settle(s, id, o), s', o)
    ensures AllRejected(s, s', o)
  {
  }

  lemma AgentFinalsFacts(pending: seq<Pending>)
    ensures forall p :: p in AgentFinals(pending) <==> p in pending && IsAgentFinal(p)
  {
  }

  lemma RequestKeepsInv(s: State, method_: string, expectFinal: bool, sendSucceeds: bool)
    requires Inv(s)
    ensures Inv(DoRequest(s, method_, expectFinal, sendSucceeds))
  {
    var id := |s.outcomes|;
    assert id !in s.timers;
    if s.link.attached && s.link.open {
      var p := Pending(id, method_, expectFinal);
      var s' := s.(outcomes := s.outcomes + [[]], timers := s.timers + {id}, pending := s.pending + [p]);
      forall k ensures k in s'.timers <==> IsPending(s', k) {
        assert forall q :: q in s'.pending <==> q in s.pending || q == p;
        assert k in s.timers <==> IsPending(s, k);
        if k == id { assert p in s'.pending; }
        if IsPending(s, k) {
          var q :| q in s.pending && q.id == k;
          assert q in s'.pending;
        }
      }
      if !sendSucceeds { SettleKeepsInv(s', id, SendFailed); }
    } else {
      var s' := DoRequest(s, method_, expectFinal, sendSucceeds);
      assert forall k :: IsPending(s', k) == IsPending(s, k);
    }
  }

  lemma StepKeepsInv(s: State, ev: Event)
    requires Inv(s)
    ensures Inv(Step(s, ev))
  {
    match ev
    case Connected => assert forall k :: IsPending(Step(s, ev), k) == IsPending(s, k);
    case SocketStalls => assert forall k :: IsPending(Step(s, ev), k) == IsPending(s, k);
    case Request(m, f, ok) => RequestKeepsInv(s, m, f, ok);
    case Message(frame) => MessageKeepsInv(s, frame);
    case TimerFires(id) => if id in s.timers { SettleKeepsInv(s, id, TimedOut); }
    case SocketCloses => LinkIsIrrelevant(s, s.link.(open := false));
      RejectAllSettlesEveryPending(s.(link := s.link.(open := false)), ConnectionClosed);
    case Close => LinkIsIrrelevant(s, Link(false, false));
      RejectAllSettlesEveryPending(s.(link := Link(false, false)), ConnectionClosed);
  }

  lemma LinkIsIrrelevant(s: State, link: Link)
    requires Inv(s)
    ensures Inv(s.(link := link))
  {
    assert forall k :: IsPending(s.(link := link), k) == IsPending(s, k);
  }

  lemma MessageKeepsInv(s: State, frame: Frame)
    requires Inv(s)
    ensures Inv(HandleMessage(s, frame))
  {
    match frame
    case Unusable =>
    case AgentEvent(hasContent, payload) =>
      AgentFinalsFacts(s.pending);
      var finals := AgentFinals(s.pending);
      if hasContent && |finals| == 1 {
        assert finals[0] in finals && IsPending(s, finals[0].id);
        SettleKeepsInv(s, finals[0].id, Resolved(payload));
      }
    case Response(id, ok, accepted, payload, message) =>
      var i := IndexOf(s.pending, id);
      if i >= 0 && !(s.pending[i].expectFinal && accepted) {
        assert s.pending[i] in s.pending && IsPending(s, id);
        SettleKeepsInv(s, id, if ok then Resolved(payload) else ServerError(message));
      }
  }

  lemma {:induction false} RunKeepsInv(s: State, evs: seq<Event>)
    requires Inv(s)
    ensures Inv(Run(s, evs))
    decreases |evs|
  {
    if evs != [] {
      StepKeepsInv(s, evs[0]);
      RunKeepsInv(Step(s, evs[0]), evs[1..]);
    }
  }

  /** After any run, each issued request is pending with an armed timer and unsettled, or is
      neither and has received exactly one outcome. */
  lemma PendingOrSettledOnce(evs: seq<Event>, id: nat)
    requires id < |Run(INIT, evs).outcomes|
    ensures var s := Run(INIT, evs);
      && (IsPending(s, id) <==> id in s.timers)
      && |s.outcomes[id]| == if IsPending(s, id) then 0 else 1
  {
    assert Inv(INIT) by { assert forall k :: !IsPending(INIT, k); }
    RunKeepsInv(INIT, evs);
  }

  // ---------------------------------------------------------------------------
  // Requests do not interfere
  // ---------------------------------------------------------------------------

  function LinkAfter(link: Link, ev: Event): Link {
    match ev
    case Connected => Link(true, true)
    case SocketStalls => link.(open := false)
    case SocketCloses => if link.attached then link.(open := false) else link
    case Close => Link(false, false)
    case _ => link
  }

  /** How one event settles a request that is alone on its connection: by its own response, its
      own timer, or a close. */
  function Decides(p: Pending, link: Link, ev: Event): Option<Outcome> {
    match ev
    case Message(Response(id, ok, accepted, payload, message)) =>
      if link.attached && id == p.id && !(p.expectFinal && accepted)
      then Some(if ok then Resolved(payload) else ServerError(message))
      else None
    case TimerFires(id) => if id == p.id then Some(TimedOut) else None
    case SocketCloses => if link.attached then Some(ConnectionClosed) else None
    case Close => Some(ConnectionClosed)
    case _ => None
  }

  /** The first event that decides. */
  function Fate(p: Pending, link: Link, evs: seq<Event>): Option<Outcome>
    decreases |evs|
  {
    if evs == [] then None
    else if Decides(p, link, evs[0]).Some? then Decides(p, link, evs[0])
    else Fate(p, LinkAfter(link, evs[0]), evs[1..])
  }

  /** The payload of an agent event that settles `p`: one with content that arrives while `p` is
      the only outstanding final-expecting agent request.  The event does not say which request
      it belongs to. */
  ghost function ClaimedBy(s: State, p: Pending, ev: Event): Option<string> {
    match ev
    case Message(AgentEvent(hasContent, payload)) =>
      if s.link.attached && hasContent && IsSoleAgentRequest(s.pending, p) then Some(payload) else None
    case _ => None
  }

  ghost predicate IsSoleAgentRequest(pending: seq<Pending>, p: Pending) {
    && p.expectFinal && p.method_ == "agent"
    && forall q :: q in pending && q.expectFinal && q.method_ == "agent" ==> q == p
  }

  /** The payload of the first such event, if it arrives before anything addressed to `p` does. */
  ghost function Claimed(s: State, p: Pending, evs: seq<Event>): Option<string>
    decreases |evs|
  {
    if evs == [] || Decides(p, s.link, evs[0]).Some? then None
    else if ClaimedBy(s, p, evs[0]).Some? then ClaimedBy(s, p, evs[0])
    else Claimed(Step(s, evs[0]), p, evs[1..])
  }

  /** How one event settles `p` among whatever else is pending. */
  ghost function DecidesIn(s: State, p: Pending, ev: Event): Option<Outcome> {
    match ClaimedBy(s, p, ev)
    case Some(payload) => Some(Resolved(payload))
    case None => Decides(p, s.link, ev)
  }

  lemma StepKeepsLength(s: State, ev: Event)
    requires Inv(s)
    ensures |Step(s, ev).outcomes| >= |s.outcomes|
    ensures Step(s, ev).link == LinkAfter(s.link, ev)
  {
    if ev == Close {
      LinkIsIrrelevant(s, Link(false, false));
      RejectAllSettlesEveryPending(s.(link := Link(false, false)), ConnectionClosed);
    } else if ev == SocketCloses {
      LinkIsIrrelevant(s, s.link.(open := false));
      RejectAllSettlesEveryPending(s.(link := s.link.(open := false)), ConnectionClosed);
    }
  }

  /** A settled promise receives nothing more. */
  lemma SettledStaysInStep(s: State, ev: Event, id: nat)
    requires Inv(s) && id < |s.outcomes| && id !in s.timers
    ensures id < |Step(s, ev).outcomes| && id !in Step(s, ev).timers
    ensures Step(s, ev).outcomes[id] == s.outcomes[id]
  {
    StepKeepsLength(s, ev);
    assert !IsPending(s, id);
    match ev
    case Message(frame) => AgentFinalsFacts(s.pending);
      if frame.Response? && IndexOf(s.pending, frame.id) >= 0 {
        assert s.pending[IndexOf(s.pending, frame.id)] in s.pending;
      } else if frame.AgentEvent? && |AgentFinals(s.pending)| == 1 {
        assert AgentFinals(s.pending)[0] in AgentFinals(s.pending);
      }
    case SocketCloses =>
      LinkIsIrrelevant(s, s.link.(open := false));
      RejectAllSettlesEveryPending(s.(link := s.link.(open := false)), ConnectionClosed);
    case Close =>
      LinkIsIrrelevant(s, Link(false, false));
      RejectAllSettlesEveryPending(s.(link := Link(false, false)), ConnectionClosed);
    case _ =>
  }

  lemma {:induction false} SettledStays(s: State, evs: seq<Event>, id: nat)
    requires Inv(s) && id < |s.outcomes| && id !in s.timers
    ensures id < |Run(s, evs).outcomes| && Run(s, evs).outcomes[id] == s.outcomes[id]
    decreases |evs|
  {
    if evs != [] {
      StepKeepsInv(s, evs[0]);
      SettledStaysInStep(s, evs[0], id);
      SettledStays(Step(s, evs[0]), evs[1..], id);
    }
  }

  /** One step leaves the request pending or settles it as an event of its own or an agent event
      decides. */
  lemma StepMatchesFate(s: State, p: Pending, ev: Event)
    requires Inv(s) && p in s.pending
    ensures var s' := Step(s, ev);
      match DecidesIn(s, p, ev)
      case None => p in s'.pending
      case Some(o) => p.id !in s'.timers && p.id < |s'.outcomes| && s'.outcomes[p.id] == [o]
  {
    assert IsPending(s, p.id);
    StepKeepsLength(s, ev);
    match ev
    case Connected =>
    case SocketStalls =>
    case Request(m, f, ok) => if !ok { WithoutIsExact(s, m, f); }
    case Message(frame) => MessageMatchesFate(s, p, frame);
    case TimerFires(id) =>
      WithoutFacts(s.pending, id);
      if id in s.timers { SettleKeepsInv(s, id, TimedOut); }
    case SocketCloses =>
      LinkIsIrrelevant(s, s.link.(open := false));
      RejectAllSettlesEveryPending(s.(link := s.link.(open := false)), ConnectionClosed);
    case Close =>
      LinkIsIrrelevant(s, Link(false, false));
      RejectAllSettlesEveryPending(s.(link := Link(false, false)), ConnectionClosed);
  }

  /** A request whose send fails leaves the other requests alone. */
  lemma WithoutIsExact(s: State, method_: string, expectFinal: bool)
    requires Inv(s)
    ensures forall p :: p in s.pending ==> p in DoRequest(s, method_, expectFinal, false).pending
  {
    var q := s.pending + [Pending(|s.outcomes|, method_, expectFinal)];
    forall i, j | 0 <= i < j < |q| ensures q[i].id != q[j].id { assert q[i] == s.pending[i] && s.pending[i] in s.pending; }
    WithoutFacts(q, |s.outcomes|);
    assert forall p :: p in s.pending ==> p in q && p.id < |s.outcomes|;
  }

  lemma MessageMatchesFate(s: State, p: Pending, frame: Frame)
    requires Inv(s) && p in s.pending && IsPending(s, p.id)
    ensures var s' := Step(s, Message(frame));
      match DecidesIn(s, p, Message(frame))
      case None => p in s'.pending
      case Some(o) => p.id !in s'.timers && p.id < |s'.outcomes| && s'.outcomes[p.id] == [o]
  {
    if s.link.attached {
      match frame
      case Unusable =>
      case AgentEvent(hasContent, payload) => AgentEventMatchesFate(s, p, frame);
      case Response(id, ok, accepted, payload, message) => ResponseMatchesFate(s, p, frame);
    }
  }

  lemma AgentEventMatchesFate(s: State, p: Pending, frame: Frame)
    requires Inv(s) && p in s.pending && IsPending(s, p.id) && s.link.attached && frame.AgentEvent?
    ensures var s' := Step(s, Message(frame));
      match DecidesIn(s, p, Message(frame))
      case None => p in s'.pending
      case Some(o) => p.id !in s'.timers && p.id < |s'.outcomes| && s'.outcomes[p.id] == [o]
  {
    var finals := AgentFinals(s.pending);
    SoleAgentFinal(s, p);
    if frame.hasContent && |finals| == 1 {
      var q := finals[0];
      AgentFinalsFacts(s.pending);
      assert q in finals && q in s.pending && finals == [q];
      SameIdSamePending(s, p, q);
      WithoutFacts(s.pending, q.id);
      assert IsPending(s, q.id);
      SettleKeepsInv(s, q.id, Resolved(frame.eventPayload));
    }
  }

  lemma ResponseMatchesFate(s: State, p: Pending, frame: Frame)
    requires Inv(s) && p in s.pending && IsPending(s, p.id) && s.link.attached && frame.Response?
    ensures var s' := Step(s, Message(frame));
      match Decides(p, s.link, Message(frame))
      case None => p in s'.pending
      case Some(o) => p.id !in s'.timers && p.id < |s'.outcomes| && s'.outcomes[p.id] == [o]
  {
    var id := frame.id;
    var i := IndexOf(s.pending, id);
    WithoutFacts(s.pending, id);
    if i >= 0 {
      assert s.pending[i] in s.pending && IsPending(s, id);
      if id == p.id { SameIdSamePending(s, p, s.pending[i]); }
      SettleKeepsInv(s, id, if frame.ok then Resolved(frame.payload) else ServerError(frame.message));
    }
  }

  lemma SameIdSamePending(s: State, p: Pending, q: Pending)
    requires Inv(s) && p in s.pending && q in s.pending
    ensures p.id == q.id ==> p == q
  {
  }

  function Received(outcome: Option<Outcome>): seq<Outcome> {
    match outcome
    case None => []
    case Some(o) => [o]
  }

  /** How a request comes out of a run, whatever shares the connection: with the payload of the
      agent event that claims it, if one does before its own response, timer or close, and else
      exactly as if it were alone. */
  lemma {:induction false} ClaimedOrOwnFate(s: State, p: Pending, evs: seq<Event>)
    requires Inv(s) && p in s.pending
    ensures p.id < |Run(s, evs).outcomes|
    ensures Run(s, evs).outcomes[p.id] ==
      match Claimed(s, p, evs)
      case Some(payload) => [Resolved(payload)]
      case None => Received(Fate(p, s.link, evs))
    decreases |evs|
  {
    assert IsPending(s, p.id);
    if evs != [] {
      var s' := Step(s, evs[0]);
      StepKeepsInv(s, evs[0]);
      StepKeepsLength(s, evs[0]);
      StepMatchesFate(s, p, evs[0]);
      if DecidesIn(s, p, evs[0]).Some? {
        SettledStays(s', evs[1..], p.id);
      } else {
        ClaimedOrOwnFate(s', p, evs[1..]);
      }
    }
  }

  /** Demultiplexing, exactly: a request comes out as its own events decide if and only if no
      agent event claims it first, or one does with the very payload its own response brings. */
  lemma RequestsDoNotInterfereIff(s: State, p: Pending, evs: seq<Event>)
    requires Inv(s) && p in s.pending
    ensures p.id < |Run(s, evs).outcomes|
    ensures Run(s, evs).outcomes[p.id] == Received(Fate(p, s.link, evs))
      <==> Claimed(s, p, evs).None? || Fate(p, s.link, evs) == Some(Resolved(Claimed(s, p, evs).value))
  {
    ClaimedOrOwnFate(s, p, evs);
  }

  /** Only final-expecting agent requests can be claimed; for all others nothing interferes. */
  lemma {:induction false} OnlyAgentFinalsAreClaimed(s: State, p: Pending, evs: seq<Event>)
    requires Inv(s) && p in s.pending && !(p.expectFinal && p.method_ == "agent")
    ensures Claimed(s, p, evs).None?
    decreases |evs|
  {
    if evs != [] && Decides(p, s.link, evs[0]).None? {
      StepKeepsInv(s, evs[0]);
      StepMatchesFate(s, p, evs[0]);
      OnlyAgentFinalsAreClaimed(Step(s, evs[0]), p, evs[1..]);
    }
  }

  /** So a request of any other kind comes out exactly as if it were alone on the connection. */
  lemma OtherRequestsDoNotInterfere(s: State, p: Pending, evs: seq<Event>)
    requires Inv(s) && p in s.pending && !(p.expectFinal && p.method_ == "agent")
    ensures p.id < |Run(s, evs).outcomes|
    ensures Run(s, evs).outcomes[p.id] == Received(Fate(p, s.link, evs))
  {
    ClaimedOrOwnFate(s, p, evs);
    OnlyAgentFinalsAreClaimed(s, p, evs);
  }

  // From the moment of issue.

  /** What the caller of a request eventually receives: an error at once if the connection is down
      or the send fails, and else what happens to a pending request with just this method and flag. */
  ghost function FateOfIssued(s: State, method_: string, expectFinal: bool, sendSucceeds: bool, evs: seq<Event>): Option<Outcome> {
    if !(s.link.open && s.link.attached) then Some(NotConnected)
    else if !sendSucceeds then Some(SendFailed)
    else
      var p := Pending(|s.outcomes|, method_, expectFinal);
      var s' := Step(s, Request(method_, expectFinal, true));
      match Claimed(s', p, evs)
      case Some(payload) => Some(Resolved(payload))
      case None => Fate(p, s.link, evs)
  }

  lemma Issue(s: State, method_: string, expectFinal: bool, sendSucceeds: bool)
    requires Inv(s)
    ensures var s' := Step(s, Request(method_, expectFinal, sendSucceeds));
      var n := |s.outcomes|;
      && Inv(s') && |s'.outcomes| == n + 1 && s'.link == s.link
      && if !(s.link.open && s.link.attached) then n !in s'.timers && s'.outcomes[n] == [NotConnected]
         else if !sendSucceeds then n !in s'.timers && s'.outcomes[n] == [SendFailed]
         else Pending(n, method_, expectFinal) in s'.pending
  {
    StepKeepsInv(s, Request(method_, expectFinal, sendSucceeds));
    assert |s.outcomes| !in s.timers;
    var none: seq<Outcome> := [];
    assert none + [NotConnected] == [NotConnected] && none + [SendFailed] == [SendFailed];
  }

  /** The whole life of a request, from its issue on, whatever happened before and happens after. */
  lemma IssuedRequestFate(s: State, method_: string, expectFinal: bool, sendSucceeds: bool, evs: seq<Event>)
    requires Inv(s)
    ensures var s' := Run(s, [Request(method_, expectFinal, sendSucceeds)] + evs);
      && |s.outcomes| < |s'.outcomes|
      && s'.outcomes[|s.outcomes|] == Received(FateOfIssued(s, method_, expectFinal, sendSucceeds, evs))
  {
    var s' := Step(s, Request(method_, expectFinal, sendSucceeds));
    RunOne(s, Request(method_, expectFinal, sendSucceeds), evs);
    Issue(s, method_, expectFinal, sendSucceeds);
    if s.link.open && s.link.attached && sendSucceeds {
      ClaimedOrOwnFate(s', Pending(|s.outcomes|, method_, expectFinal), evs);
    } else {
      SettledStays(s', evs, |s.outcomes|);
    }
  }

  // An agent event that belongs to another request: request 0 times out, then its late answer
  // finds request 1 alone and resolves it.

  const AGENT_REQUEST := Request("agent", true, true)

  function TwoAgents(): State {
    State(Link(true, true), [Pending(0, "agent", true), Pending(1, "agent", true)], {0, 1}, [[], []])
  }

  function OneTimedOut(): State {
    State(Link(true, true), [Pending(1, "agent", true)], {1}, [[TimedOut], []])
  }

  lemma RunOne(s: State, ev: Event, rest: seq<Event>)
    ensures Run(s, [ev] + rest) == Run(Step(s, ev), rest)
  {
    assert ([ev] + rest)[1..] == rest;
  }

  lemma TwoAgentsIssued()
    ensures Step(Step(Step(INIT, Connected), AGENT_REQUEST), AGENT_REQUEST) == TwoAgents()
  {
    var s1 := State(Link(true, true), [], {}, []);
    assert Step(INIT, Connected) == s1;
    var s2 := State(Link(true, true), [Pending(0, "agent", true)], {0}, [[]]);
    assert Step(s1, AGENT_REQUEST) == s2;
    assert s2.outcomes + [[]] == TwoAgents().outcomes && {0} + {1} == {0, 1};
    assert s2.pending + [Pending(1, "agent", true)] == TwoAgents().pending;
  }

  lemma FirstTimesOut()
    ensures Step(TwoAgents(), TimerFires(0)) == OneTimedOut()
  {
    var q := TwoAgents().pending;
    assert q[..0] + q[1..] == [Pending(1, "agent", true)];
    assert {0, 1} - {0} == {1};
    assert [] + [TimedOut] == [TimedOut];
  }

  lemma LateAnswerClaimsTheOther(payload: string)
    ensures Step(OneTimedOut(), Message(AgentEvent(true, payload))).outcomes == [[TimedOut], [Resolved(payload)]]
  {
    var s := OneTimedOut();
    assert AgentFinals(s.pending[1..]) == [];
    assert AgentFinals(s.pending) == [Pending(1, "agent", true)];
    assert [] + [Resolved(payload)] == [Resolved(payload)];
  }

  /** A run in which request 1 comes out with the answer to request 0. */
  lemma LateAnswerIsMisdelivered(answerToZero: string)
    ensures Run(INIT, [Connected] + ([AGENT_REQUEST] + ([AGENT_REQUEST] + ([TimerFires(0)]
                + [Message(AgentEvent(true, answerToZero))])))).outcomes
      == [[TimedOut], [Resolved(answerToZero)]]
  {
    var last := [Message(AgentEvent(true, answerToZero))];
    TwoAgentsIssued();
    FirstTimesOut();
    LateAnswerClaimsTheOther(answerToZero);
    var s1 := Step(INIT, Connected);
    RunOne(INIT, Connected, [AGENT_REQUEST] + ([AGENT_REQUEST] + ([TimerFires(0)] + last)));
    RunOne(s1, AGENT_REQUEST, [AGENT_REQUEST] + ([TimerFires(0)] + last));
    RunOne(Step(s1, AGENT_REQUEST), AGENT_REQUEST, [TimerFires(0)] + last);
    RunOne(TwoAgents(), TimerFires(0), last);
    RunOne(OneTimedOut(), last[0], []);
    assert last + [] == last;
  }

  lemma AgentFinalsAreDistinct(pending: seq<Pending>)
    requires forall i, j :: 0 <= i < j < |pending| ==> pending[i].id != pending[j].id
    ensures forall i, j :: 0 <= i < j < |AgentFinals(pending)| ==> AgentFinals(pending)[i] != AgentFinals(pending)[j]
  {
    if pending != [] {
      AgentFinalsAreDistinct(pending[1..]);
      AgentFinalsFacts(pending[1..]);
    }
  }

  lemma SoleAgentFinal(s: State, p: Pending)
    requires Inv(s) && p in s.pending
    ensures AgentFinals(s.pending) == [p] <==> IsSoleAgentRequest(s.pending, p)
  {
    var finals := AgentFinals(s.pending);
    AgentFinalsFacts(s.pending);
    AgentFinalsAreDistinct(s.pending);
    if finals == [p] {
      assert p in finals;
      forall q | q in s.pending && IsAgentFinal(q) ensures q == p { assert q in finals; }
    }
    if IsSoleAgentRequest(s.pending, p) {
      assert IsAgentFinal(p) && p in finals;
      AllTheSame(finals, p);
    }
  }

  lemma AllTheSame(finals: seq<Pending>, p: Pending)
    requires p in finals && forall q :: q in finals ==> q == p
    requires forall i, j :: 0 <= i < j < |finals| ==> finals[i] != finals[j]
    ensures finals == [p]
  {
    if |finals| > 1 { TwoDiffer(finals); }
  }

  lemma TwoDiffer(finals: seq<Pending>)
    requires |finals| > 1 && forall i, j :: 0 <= i < j < |finals| ==> finals[i] != finals[j]
    ensures exists q, r :: q in finals && r in finals && q != r
  {
    assert finals[0] in finals && finals[1] in finals;
  }

  /** An agent event settles a request if and only if it carries content and the request is the
      only outstanding final-expecting agent request. */
  lemma AgentEventSettlesOnlyTheSoleRequest(s: State, p: Pending, hasContent: bool, payload: string)
    requires Inv(s) && p in s.pending && s.link.attached
    ensures p.id !in Step(s, Message(AgentEvent(hasContent, payload))).timers
      <==> hasContent && IsSoleAgentRequest(s.pending, p)
  {
    SoleAgentFinal(s, p);
    assert IsPending(s, p.id);
    var finals := AgentFinals(s.pending);
    if |finals| == 1 {
      AgentFinalsFacts(s.pending);
      assert finals[0] in finals;
      SameIdSamePending(s, p, finals[0]);
    }
  }

  /** An `accepted` acknowledgement never settles a request that waits for the final answer. */
  lemma AcceptedIsNotFinal(s: State, p: Pending, ok: bool, payload: string, message: string)
    requires Inv(s) && p in s.pending && p.expectFinal
    ensures Step(s, Message(Response(p.id, ok, true, payload, message))) == s
  {
    var i := IndexOf(s.pending, p.id);
    if i >= 0 { SameIdSamePending(s, p, s.pending[i]); }
  }

  // ---------------------------------------------------------------------------
  // The class
  // ---------------------------------------------------------------------------

  class GatewayRpcConnection {
    var open: bool
    var attached: bool
    var pending: seq<Pending>
    var timers: set<nat>
    var nextId: nat
    ghost var outcomes: seq<seq<Outcome>>

    ghost predicate Valid() reads this { nextId == |outcomes| }

    ghost function View(): State reads this { State(Link(open, attached), pending, timers, outcomes) }

    constructor ()
      ensures Valid() && View() == INIT
    {
      open, attached, pending, timers, nextId, outcomes := false, false, [], {}, 0, [];
    }

    method Connect()
      requires Valid()
      modifies this
      ensures Valid() && View() == Step(old(View()), Connected)
    {
      open, attached := true, true;
    }

    /** Issues a request; `sendSucceeds` is what `socket.send` does. */
    method Request(method_: string, expectFinal: bool, sendSucceeds: bool) returns (id: nat)
      requires Valid()
      modifies this
      ensures Valid() && View() == Step(old(View()), Event.Request(method_, expectFinal, sendSucceeds))
      ensures id == |old(outcomes)|
    {
      id := nextId;
      nextId, outcomes := nextId + 1, outcomes + [[]];
      if !attached || !open {
        outcomes := Deliver(outcomes, id, NotConnected);
        return;
      }
      timers := timers + {id};
      pending := pending + [Pending(id, method_, expectFinal)];
      if !sendSucceeds {
        timers := timers - {id};
        pending := Without(pending, id);
        outcomes := Deliver(outcomes, id, SendFailed);
      }
    }

    method RequestTimer(id: nat)
      requires Valid() && id in timers
      modifies this
      ensures Valid() && View() == Step(old(View()), TimerFires(id))
    {
      timers := timers - {id};
      pending := Without(pending, id);
      outcomes := Deliver(outcomes, id, TimedOut);
    }

    method OnMessage(frame: Frame)
      requires Valid() && attached
      modifies this
      ensures Valid() && View() == Step(old(View()), Message(frame))
    {
      match frame
      case Unusable =>
      case AgentEvent(hasContent, payload) =>
        if hasContent {
          var pendingEntries := AgentFinals(pending);
          if |pendingEntries| == 1 {
            var id := pendingEntries[0].id;
            pending := Without(pending, id);
            timers := timers - {id};
            outcomes := Deliver(outcomes, id, Resolved(payload));
          }
        }
      case Response(id, ok, accepted, payload, message) =>
        var i := IndexOf(pending, id);
        if i < 0 { return; }
        if pending[i].expectFinal && accepted { return; }
        pending := Without(pending, id);
        timers := timers - {id};
        outcomes := Deliver(outcomes, id, if ok then Resolved(payload) else ServerError(message));
    }

    method RejectAllPending(error: Outcome)
      requires Valid()
      modifies this
      ensures Valid() && View() == RejectAll(old(View()), error)
    {
      ghost var before := View();
      var i := 0;
      while i < |pending|
        invariant 0 <= i <= |pending| && Valid()
        invariant RejectAll(View().(pending := pending[i..]), error) == RejectAll(before, error)
        invariant open == old(open) && attached == old(attached) && pending == old(pending)
      {
        timers := timers - {pending[i].id};
        outcomes := Deliver(outcomes, pending[i].id, error);
        i := i + 1;
      }
      pending := [];
    }

    method OnSocketClose()
      requires Valid() && attached
      modifies this
      ensures Valid() && View() == Step(old(View()), SocketCloses)
    {
      open := false;
      RejectAllPending(ConnectionClosed);
    }

    method CloseConnection()
      requires Valid()
      modifies this
      ensures Valid() && View() == Step(old(View()), Close)
    {
      open, attached := false, false;
      RejectAllPending(ConnectionClosed);
    }
  }
}
