/** The four-state circuit breaker of one peer (src/peer-health.ts).

    The recovery curve `1 - exp(-k t)` is an arbitrary function of the elapsed time here, and
    the clock is an argument of every operation that reads it. */
module PeerHealth {
  import opened Common

  datatype Circuit = Closed | Desensitized | Open | Recovering

  datatype Health = Unknown | Healthy | Unhealthy

  /** `recovery` is absent when no `recoveryRateConstant` is configured. */
  datatype Config = Config(
    failureThreshold: int,
    resetTimeoutMs: int,
    softThreshold: Option<int>,
    desensitizedCapacity: Option<real>,
    recovery: Option<int -> real>)

  /** The peer's entry in `states`, whether it is in `recoveringInFlight`, and its entry in
      `capacityCounters`. */
  datatype Peer = Peer(
    circuit: Circuit,
    health: Health,
    failures: nat,
    lastFailureAt: Option<int>,
    lastCheckAt: Option<int>,
    recoveringSince: Option<int>,
    inFlight: bool,
    counter: Option<nat>)

  const FRESH := Peer(Closed, Unknown, 0, None, None, None, false, None)
  const RECOVERY_COMPLETE := 0.99
  const CAPACITY_PERIOD := 10

  /** `Math.round` */
  function Round(x: real): int { (x + 0.5).Floor }

  function RecoveryCapacity(curve: int -> real, elapsedMs: int): real {
    if elapsedMs <= 0 then 0.0 else curve(elapsedMs)
  }

  function CheckCapacity(p: Peer, capacity: real): (bool, Peer) {
    if capacity >= 1.0 then (true, p)
    else if capacity <= 0.0 then (false, p)
    else
      var counter := p.counter.GetOr(0);
      (counter % CAPACITY_PERIOD < Round(capacity * 10.0), p.(counter := Some(counter + 1)))
  }

  /** A time of failure of zero is falsy in the source. */
  predicate CooledDown(cfg: Config, p: Peer, now: int) {
    p.lastFailureAt.Some? && p.lastFailureAt.value != 0 && now - p.lastFailureAt.value >= cfg.resetTimeoutMs
  }

  function IsAvailable(cfg: Config, p: Peer, now: int): (bool, Peer) {
    match p.circuit
    case Closed => (true, p)
    case Desensitized => CheckCapacity(p, cfg.desensitizedCapacity.GetOr(0.5))
    case Open =>
      if CooledDown(cfg, p, now)
      then (true, p.(circuit := Recovering, recoveringSince := Some(now), inFlight := true, counter := Some(0)))
      else (false, p)
    case Recovering =>
      if cfg.recovery.Some? then
        var capacity := RecoveryCapacity(cfg.recovery.value, now - p.recoveringSince.GetOr(now));
        if capacity >= RECOVERY_COMPLETE
        then (true, p.(circuit := Closed, failures := 0, health := Healthy, recoveringSince := None, inFlight := false))
        else CheckCapacity(p, capacity)
      else if p.inFlight then (false, p)
      else (true, p.(inFlight := true))
  }

  function RecordSuccess(p: Peer): Peer {
    p.(failures := 0, health := Healthy, recoveringSince := None, inFlight := false, counter := None, circuit := Closed)
  }

  predicate SoftActive(cfg: Config) {
    cfg.softThreshold.Some? && cfg.softThreshold.value < cfg.failureThreshold
  }

  predicate SoftWindow(cfg: Config, failures: int) {
    SoftActive(cfg) && cfg.softThreshold.value <= failures < cfg.failureThreshold
  }

  function RecordFailure(cfg: Config, p: Peer, now: int): Peer {
    var p' := p.(failures := p.failures + 1, lastFailureAt := Some(now), inFlight := false);
    match p.circuit
    case Recovering => p'.(circuit := Open, recoveringSince := None)
    case Desensitized =>
      if p'.failures >= cfg.failureThreshold then p'.(circuit := Open, health := Unhealthy, counter := None) else p'
    case Closed =>
      if SoftWindow(cfg, p'.failures) then p'.(circuit := Desensitized, counter := Some(0))
      else if p'.failures >= cfg.failureThreshold then p'.(circuit := Open, health := Unhealthy)
      else p'
    case Open => p'
  }

  /** The tail of `checkPeer`, once the probe has answered. */
  function ProbeSettled(cfg: Config, p: Peer, now: int, healthy: bool): Peer {
    var p' := p.(lastCheckAt := Some(now));
    if healthy then RecordSuccess(p') else RecordFailure(cfg, p'.(health := Unhealthy), now)
  }

  datatype Event = Ask(now: int) | Success | Failure(now: int) | Probe(now: int, healthy: bool)

  function Step(cfg: Config, p: Peer, ev: Event): Peer {
    match ev
    case Ask(now) => IsAvailable(cfg, p, now).1
    case Success => RecordSuccess(p)
    case Failure(now) => RecordFailure(cfg, p, now)
    case Probe(now, healthy) => ProbeSettled(cfg, p, now, healthy)
  }

  function Run(cfg: Config, p: Peer, evs: seq<Event>): Peer
    decreases |evs|
  {
    if evs == [] then p else Run(cfg, Step(cfg, p, evs[0]), evs[1..])
  }

  /** The answers `isAvailable` gives along a run. */
  function Answers(cfg: Config, p: Peer, evs: seq<Event>): seq<bool>
    decreases |evs|
  {
    if evs == [] then []
    else
      (if evs[0].Ask? then [IsAvailable(cfg, p, evs[0].now).0] else [])
      + Answers(cfg, Step(cfg, p, evs[0]), evs[1..])
  }

  // ---------------------------------------------------------------------------
  // Reachable states
  // ---------------------------------------------------------------------------

  /** Where the failure count of a circuit stands. */
  ghost predicate CountFits(cfg: Config, circuit: Circuit, failures: nat) {
    match circuit
    case Closed =>
      failures == 0
      || (failures < cfg.failureThreshold && (SoftActive(cfg) ==> failures < cfg.softThreshold.value))
    case Desensitized => SoftActive(cfg) && cfg.softThreshold.value <= failures < cfg.failureThreshold
    case Open => failures >= cfg.failureThreshold
    case Recovering => failures >= cfg.failureThreshold
  }

  ghost predicate Inv(cfg: Config, p: Peer) {
    && CountFits(cfg, p.circuit, p.failures)
    && (p.circuit.Open? || p.circuit.Recovering? ==> p.health == Unhealthy && p.lastFailureAt.Some?)
    && (p.recoveringSince.Some? <==> p.circuit.Recovering?)
    && (p.inFlight <==> p.circuit.Recovering?)
  }

  lemma {:induction false} RunKeepsInv(cfg: Config, p: Peer, evs: seq<Event>)
    requires Inv(cfg, p)
    ensures Inv(cfg, Run(cfg, p, evs))
    decreases |evs|
  {
    if evs != [] { RunKeepsInv(cfg, Step(cfg, p, evs[0]), evs[1..]); }
  }

  /** In every reachable state the circuit says where the failure count stands between the two
      thresholds, and a recovering circuit always has its probe in flight, so the branch of
      `isAvailable` that starts a second probe is never taken. */
  lemma ReachableStates(cfg: Config, evs: seq<Event>)
    ensures var p := Run(cfg, FRESH, evs);
      && CountFits(cfg, p.circuit, p.failures)
      && (p.circuit.Open? || p.circuit.Recovering? ==> p.health == Unhealthy)
      && (p.recoveringSince.Some? <==> p.circuit.Recovering?)
      && (p.inFlight <==> p.circuit.Recovering?)
  {
    RunKeepsInv(cfg, FRESH, evs);
  }

  /** Asking moves an open circuit exactly when the cooldown since the last failure is over, and
      then admits that one call. */
  lemma OpenEndsOnlyAfterCooldown(cfg: Config, evs: seq<Event>, now: int)
    requires Run(cfg, FRESH, evs).circuit.Open?
    ensures var p := Run(cfg, FRESH, evs);
      && p.lastFailureAt.Some?
      && IsAvailable(cfg, p, now).0
         == (p.lastFailureAt.value != 0 && now >= p.lastFailureAt.value + cfg.resetTimeoutMs)
         == IsAvailable(cfg, p, now).1.circuit.Recovering?
  {
    RunKeepsInv(cfg, FRESH, evs);
  }

  // ---------------------------------------------------------------------------
  // What the breaker remembers
  // ---------------------------------------------------------------------------

  /** The times of the failures since the last success, and the question that got the probe since
      the last of them; no circuit. */
  datatype Memory = Memory(failures: seq<int>, probing: Option<int>, health: Health, lastCheckAt: Option<int>)

  const NOTHING := Memory([], None, Unknown, None)

  predicate HasTripped(cfg: Config, m: Memory) { m.failures != [] && |m.failures| >= cfg.failureThreshold }

  /** A question at `now` that finds the capacity of a recovering peer at 99 percent or more. */
  predicate CompletesRecovery(cfg: Config, m: Memory, now: int) {
    && cfg.recovery.Some? && m.probing.Some?
    && now > m.probing.value && cfg.recovery.value(now - m.probing.value) >= 0.99
  }

  predicate GetsProbe(cfg: Config, m: Memory, now: int) {
    && HasTripped(cfg, m) && m.probing.None?
    && var last := m.failures[|m.failures| - 1]; last != 0 && now - last >= cfg.resetTimeoutMs
  }

  function Remember(cfg: Config, m: Memory, ev: Event): Memory {
    match ev
    case Success => m.(failures := [], probing := None, health := Healthy)
    case Failure(now) => AddFailure(cfg, m, now)
    case Probe(now, healthy) =>
      if healthy then Memory([], None, Healthy, Some(now))
      else AddFailure(cfg, m.(health := Unhealthy, lastCheckAt := Some(now)), now)
    case Ask(now) =>
      if CompletesRecovery(cfg, m, now) then m.(failures := [], probing := None, health := Healthy)
      else if GetsProbe(cfg, m, now) then m.(probing := Some(now))
      else m
  }

  function AddFailure(cfg: Config, m: Memory, now: int): Memory {
    var m' := m.(failures := m.failures + [now], probing := None);
    if HasTripped(cfg, m') then m'.(health := Unhealthy) else m'
  }

  function RememberAll(cfg: Config, m: Memory, evs: seq<Event>): Memory
    decreases |evs|
  {
    if evs == [] then m else RememberAll(cfg, Remember(cfg, m, evs[0]), evs[1..])
  }

  /** Everything a peer's entry says follows from the memory, its circuit included. */
  ghost predicate FollowsFrom(cfg: Config, p: Peer, m: Memory) {
    && p.failures == |m.failures|
    && p.health == m.health && p.lastCheckAt == m.lastCheckAt && p.recoveringSince == m.probing
    && (m.failures != [] ==> p.lastFailureAt == Some(m.failures[|m.failures| - 1]))
    && (m.probing.Some? ==> HasTripped(cfg, m))
    && p.circuit ==
         if HasTripped(cfg, m) then if m.probing.Some? then Recovering else Open
         else if m.failures != [] && cfg.softThreshold.Some? && cfg.softThreshold.value <= |m.failures| then Desensitized
         else Closed
  }

  lemma StepFollows(cfg: Config, p: Peer, m: Memory, ev: Event)
    requires FollowsFrom(cfg, p, m) && Inv(cfg, p)
    ensures FollowsFrom(cfg, Step(cfg, p, ev), Remember(cfg, m, ev))
  {
  }

  lemma {:induction false} RunFollows(cfg: Config, p: Peer, m: Memory, evs: seq<Event>)
    requires FollowsFrom(cfg, p, m) && Inv(cfg, p)
    ensures FollowsFrom(cfg, Run(cfg, p, evs), RememberAll(cfg, m, evs))
    decreases |evs|
  {
    if evs != [] {
      StepFollows(cfg, p, m, evs[0]);
      RunFollows(cfg, Step(cfg, p, evs[0]), Remember(cfg, m, evs[0]), evs[1..]);
    }
  }

  /** For every configuration and every run: the circuit, the count, the health and the times are
      what the failures since the last success and the questions since the last failure say. */
  lemma StateFollowsFromHistory(cfg: Config, evs: seq<Event>)
    ensures FollowsFrom(cfg, Run(cfg, FRESH, evs), RememberAll(cfg, NOTHING, evs))
  {
    RunFollows(cfg, FRESH, NOTHING, evs);
  }

  /** The throttling counter starts afresh: none is kept when the soft stage ends, and each new
      stage begins at zero. */
  lemma CounterStartsAfresh(cfg: Config, p: Peer, ev: Event)
    ensures var q := Step(cfg, p, ev);
      && (p.circuit.Desensitized? && !q.circuit.Desensitized? ==> q.counter == None)
      && (q.circuit.Desensitized? && !p.circuit.Desensitized? ==> q.counter == Some(0))
      && (q.circuit.Recovering? && !p.circuit.Recovering? ==> q.counter == Some(0))
  {
  }

  predicate BelowSoft(cfg: Config, failures: nat) {
    cfg.softThreshold.None? || failures == 0 || failures < cfg.softThreshold.value
  }

  /** Whether a question is admitted follows too, but for the share that throttling lets through. */
  lemma AnswerFollowsFromHistory(cfg: Config, evs: seq<Event>, now: int)
    ensures var m := RememberAll(cfg, NOTHING, evs);
      var admitted := IsAvailable(cfg, Run(cfg, FRESH, evs), now).0;
      && (HasTripped(cfg, m) && m.probing.None? ==> (admitted <==> GetsProbe(cfg, m, now)))
      && (HasTripped(cfg, m) && m.probing.Some? && cfg.recovery.None? ==> !admitted)
      && (CompletesRecovery(cfg, m, now) ==> admitted)
      && (!HasTripped(cfg, m) && BelowSoft(cfg, |m.failures|) ==> admitted)
  {
    RunKeepsInv(cfg, FRESH, evs);
    StateFollowsFromHistory(cfg, evs);
  }

  // ---------------------------------------------------------------------------
  // Round-robin throttling
  // ---------------------------------------------------------------------------

  /** The answers of `n` capacity checks in a row. */
  function Checks(p: Peer, capacity: real, n: nat): seq<bool>
    decreases n
  {
    if n == 0 then [] else [CheckCapacity(p, capacity).0] + Checks(CheckCapacity(p, capacity).1, capacity, n - 1)
  }

  function CountTrue(bs: seq<bool>): nat {
    if bs == [] then 0 else (if bs[0] then 1 else 0) + CountTrue(bs[1..])
  }

  /** How many of the checks numbered `0 .. m` are admitted with `k` admissions per period. */
  function Quota(m: nat, k: nat): nat { m / 10 * k + Min(m % 10, k) }

  lemma QuotaStep(m: nat, k: nat)
    requires k <= 10
    ensures Quota(m + 1, k) == Quota(m, k) + if m % 10 < k then 1 else 0
  {
    if m % 10 == 9 {
      assert (m + 1) / 10 == m / 10 + 1 && (m + 1) % 10 == 0;
      assert (m / 10 + 1) * k == m / 10 * k + k;
    } else {
      assert (m + 1) / 10 == m / 10 && (m + 1) % 10 == m % 10 + 1;
    }
  }

  lemma {:induction false} ChecksFollowQuota(p: Peer, capacity: real, n: nat)
    requires 0.0 < capacity < 1.0
    ensures 0 <= Round(capacity * 10.0) <= 10
    ensures CountTrue(Checks(p, capacity, n))
      == Quota(p.counter.GetOr(0) + n, Round(capacity * 10.0)) - Quota(p.counter.GetOr(0), Round(capacity * 10.0))
    decreases n
  {
    if n > 0 {
      var c := p.counter.GetOr(0);
      var p' := CheckCapacity(p, capacity).1;
      ChecksFollowQuota(p', capacity, n - 1);
      QuotaStep(c, Round(capacity * 10.0));
      assert Checks(p, capacity, n)[1..] == Checks(p', capacity, n - 1);
    }
  }

  /** At a fixed capacity strictly between 0 and 1: from a fresh counter, `n` checks admit
      exactly this many calls; and from any counter, after any number of checks, the next ten
      admit exactly `round(10 * capacity)`. */
  lemma ThrottleIsExact(p: Peer, capacity: real, n: nat)
    requires 0.0 < capacity < 1.0
    ensures var k := Round(capacity * 10.0);
      && (p.counter.GetOr(0) == 0 ==> CountTrue(Checks(p, capacity, n)) == n / 10 * k + Min(n % 10, k))
      && CountTrue(Checks(p, capacity, n + 10)) == CountTrue(Checks(p, capacity, n)) + k
  {
    var k := Round(capacity * 10.0);
    ChecksFollowQuota(p, capacity, n);
    ChecksFollowQuota(p, capacity, n + 10);
    QuotaPeriod(p.counter.GetOr(0) + n, k);
  }

  lemma QuotaPeriod(m: nat, k: nat)
    ensures Quota(m + 10, k) == Quota(m, k) + k && Quota(0, k) == 0
  {
    assert (m + 10) / 10 == m / 10 + 1 && (m + 10) % 10 == m % 10;
    assert (m / 10 + 1) * k == m / 10 * k + k;
  }

  /** The capacity at `now` of a peer that has been recovering since `since`. */
  function CapacityAt(curve: int -> real, since: int, now: int): real {
    if now > since then curve(now - since) else 0.0
  }

  /** How many of `n` questions in a row a capacity admits, from counter `c` on. */
  function Admitted(capacity: real, c: nat, n: nat): int {
    if capacity <= 0.0 then 0
    else if capacity >= 1.0 then n
    else var k := if Round(capacity * 10.0) < 0 then 0 else Round(capacity * 10.0); Quota(c + n, k) - Quota(c, k)
  }

  lemma ChecksAdmit(p: Peer, capacity: real, n: nat)
    ensures CountTrue(Checks(p, capacity, n)) == Admitted(capacity, p.counter.GetOr(0), n)
  {
    if capacity <= 0.0 {
      NoCapacityAdmitsNobody(p, capacity, n);
    } else if capacity >= 1.0 {
      FullCapacityAdmitsAll(p, capacity, n);
    } else {
      ChecksFollowQuota(p, capacity, n);
    }
  }

  lemma FullCapacityAdmitsAll(p: Peer, capacity: real, n: nat)
    requires capacity >= 1.0
    ensures CountTrue(Checks(p, capacity, n)) == n
    decreases n
  {
    if n > 0 {
      FullCapacityAdmitsAll(p, capacity, n - 1);
      assert Checks(p, capacity, n)[1..] == Checks(p, capacity, n - 1);
    }
  }

  /** The answers to a burst of questions that leaves the circuit alone. */
  lemma {:induction false} BurstIsChecks(cfg: Config, p: Peer, n: nat, now: int, capacity: real)
    requires p.circuit.Desensitized? || (p.circuit.Recovering? && cfg.recovery.Some? && p.recoveringSince.Some?)
    requires capacity == if p.circuit.Desensitized? then cfg.desensitizedCapacity.GetOr(0.5)
                         else CapacityAt(cfg.recovery.value, p.recoveringSince.value, now)
    requires p.circuit.Recovering? ==> capacity < 0.99
    ensures Answers(cfg, p, Asks(n, now)) == Checks(p, capacity, n)
    ensures Run(cfg, p, Asks(n, now)) == p.(counter := Run(cfg, p, Asks(n, now)).counter)
    decreases n
  {
    if n > 0 {
      assert Asks(n, now)[0] == Ask(now) && Asks(n, now)[1..] == Asks(n - 1, now);
      BurstIsChecks(cfg, Step(cfg, p, Ask(now)), n - 1, now, capacity);
    }
  }

  /** In the soft stage, `n` questions admit exactly the configured share (one half by default). */
  lemma SoftStageAdmits(cfg: Config, p: Peer, n: nat, now: int)
    requires p.circuit.Desensitized?
    ensures CountTrue(Answers(cfg, p, Asks(n, now)))
      == Admitted(if cfg.desensitizedCapacity.Some? then cfg.desensitizedCapacity.value else 0.5, p.counter.GetOr(0), n)
    ensures Run(cfg, p, Asks(n, now)).circuit.Desensitized?
  {
    var capacity := cfg.desensitizedCapacity.GetOr(0.5);
    BurstIsChecks(cfg, p, n, now, capacity);
    ChecksAdmit(p, capacity, n);
  }

  /** Gradual recovery: asking closes the circuit if and only if the curve has reached 0.99 by then;
      before, the circuit stays recovering and `n` questions at one instant admit exactly the
      share that the curve gives, nobody while it is not positive. */
  lemma RecoveryAdmits(cfg: Config, p: Peer, n: nat, now: int)
    requires p.circuit.Recovering? && p.recoveringSince.Some? && cfg.recovery.Some?
    ensures var capacity := CapacityAt(cfg.recovery.value, p.recoveringSince.value, now);
      && (IsAvailable(cfg, p, now).1.circuit.Closed? <==> capacity >= 0.99)
      && (capacity >= 0.99 ==> IsAvailable(cfg, p, now).0 && IsAvailable(cfg, p, now).1.failures == 0)
      && (capacity < 0.99 ==>
            && Run(cfg, p, Asks(n, now)).circuit.Recovering?
            && CountTrue(Answers(cfg, p, Asks(n, now))) == Admitted(capacity, p.counter.GetOr(0), n))
  {
    var capacity := CapacityAt(cfg.recovery.value, p.recoveringSince.value, now);
    if capacity < 0.99 {
      BurstIsChecks(cfg, p, n, now, capacity);
      ChecksAdmit(p, capacity, n);
    }
  }

  // ---------------------------------------------------------------------------
  // The three-state breaker
  // ---------------------------------------------------------------------------

  /** The classical breaker: closed with a count of failures in a row, open since the last
      failure, or half open with one probe under way. */
  datatype Breaker = Shut(failures: nat) | Tripped(since: int) | HalfOpen

  function BreakerAsk(cfg: Config, b: Breaker, now: int): (bool, Breaker) {
    match b
    case Shut(_) => (true, b)
    case Tripped(since) => if now - since >= cfg.resetTimeoutMs then (true, HalfOpen) else (false, b)
    case HalfOpen => (false, b)
  }

  function BreakerFailure(cfg: Config, b: Breaker, now: int): Breaker {
    if b.Shut? && b.failures + 1 < cfg.failureThreshold then Shut(b.failures + 1) else Tripped(now)
  }

  function BreakerStep(cfg: Config, b: Breaker, ev: Event): Breaker {
    match ev
    case Ask(now) => BreakerAsk(cfg, b, now).1
    case Success => Shut(0)
    case Failure(now) => BreakerFailure(cfg, b, now)
    case Probe(now, healthy) => if healthy then Shut(0) else BreakerFailure(cfg, b, now)
  }

  function BreakerRun(cfg: Config, b: Breaker, evs: seq<Event>): Breaker
    decreases |evs|
  {
    if evs == [] then b else BreakerRun(cfg, BreakerStep(cfg, b, evs[0]), evs[1..])
  }

  function BreakerAnswers(cfg: Config, b: Breaker, evs: seq<Event>): seq<bool>
    decreases |evs|
  {
    if evs == [] then []
    else
      (if evs[0].Ask? then [BreakerAsk(cfg, b, evs[0].now).0] else [])
      + BreakerAnswers(cfg, BreakerStep(cfg, b, evs[0]), evs[1..])
  }

  /** Clock readings are positive (milliseconds since 1970). */
  predicate PositiveClock(ev: Event) {
    match ev
    case Ask(now) => now > 0
    case Success => true
    case Failure(now) => now > 0
    case Probe(now, _) => now > 0
  }

  /** Throttling is never felt: there is no soft window, or its capacity rounds to all of the calls. */
  predicate SoftStageIsInvisible(cfg: Config) {
    SoftActive(cfg) && cfg.failureThreshold >= 2 ==> cfg.desensitizedCapacity.GetOr(0.5) >= 0.95
  }

  /** Recovery is all or nothing: there is no curve, or it rounds to none of the calls. */
  ghost predicate RecoveryIsInvisible(cfg: Config) {
    cfg.recovery.Some? ==> forall e: int :: e > 0 ==> cfg.recovery.value(e) < 0.05
  }

  ghost predicate Refines(cfg: Config, p: Peer, b: Breaker) {
    && Inv(cfg, p)
    && match p.circuit
       case Closed => b == Shut(p.failures)
       case Desensitized => b == Shut(p.failures) && cfg.failureThreshold >= 2
       case Open => p.lastFailureAt.Some? && p.lastFailureAt.value > 0 && b == Tripped(p.lastFailureAt.value)
       case Recovering => b == HalfOpen
  }

  lemma StepRefines(cfg: Config, p: Peer, b: Breaker, ev: Event)
    requires SoftStageIsInvisible(cfg) && RecoveryIsInvisible(cfg)
    requires Refines(cfg, p, b) && PositiveClock(ev)
    ensures Refines(cfg, Step(cfg, p, ev), BreakerStep(cfg, b, ev))
    ensures ev.Ask? ==> IsAvailable(cfg, p, ev.now).0 == BreakerAsk(cfg, b, ev.now).0
  {
    if ev.Ask? && p.circuit.Desensitized? {
      var c := cfg.desensitizedCapacity.GetOr(0.5);
      assert c * 10.0 >= 9.5;
      assert c < 1.0 ==> Round(c * 10.0) >= 10;
    } else if ev.Ask? && p.circuit.Recovering? && cfg.recovery.Some? {
      var c := RecoveryCapacity(cfg.recovery.value, ev.now - p.recoveringSince.GetOr(ev.now));
      assert c < 0.05 && c * 10.0 < 0.5;
      assert Round(c * 10.0) <= 0;
    }
  }

  lemma {:induction false} RunRefines(cfg: Config, p: Peer, b: Breaker, evs: seq<Event>)
    requires SoftStageIsInvisible(cfg) && RecoveryIsInvisible(cfg)
    requires Refines(cfg, p, b) && forall ev :: ev in evs ==> PositiveClock(ev)
    ensures Answers(cfg, p, evs) == BreakerAnswers(cfg, b, evs)
    ensures Refines(cfg, Run(cfg, p, evs), BreakerRun(cfg, b, evs))
    decreases |evs|
  {
    if evs != [] {
      assert evs[0] in evs;
      StepRefines(cfg, p, b, evs[0]);
      RunRefines(cfg, Step(cfg, p, evs[0]), BreakerStep(cfg, b, evs[0]), evs[1..]);
    }
  }

  // The converse: a configuration outside those limits is told apart by some run.

  function Failures(n: nat): seq<Event> { seq(n, _ => Failure(1)) }

  function Asks(n: nat, now: int): seq<Event> { seq(n, _ => Ask(now)) }

  lemma {:induction false} AnswersAppend(cfg: Config, p: Peer, es: seq<Event>, fs: seq<Event>)
    ensures Answers(cfg, p, es + fs) == Answers(cfg, p, es) + Answers(cfg, Run(cfg, p, es), fs)
    decreases |es|
  {
    if es == [] {
      assert es + fs == fs;
    } else {
      assert (es + fs)[1..] == es[1..] + fs;
      AnswersAppend(cfg, Step(cfg, p, es[0]), es[1..], fs);
    }
  }

  lemma {:induction false} BreakerAnswersAppend(cfg: Config, b: Breaker, es: seq<Event>, fs: seq<Event>)
    ensures BreakerAnswers(cfg, b, es + fs)
      == BreakerAnswers(cfg, b, es) + BreakerAnswers(cfg, BreakerRun(cfg, b, es), fs)
    decreases |es|
  {
    if es == [] {
      assert es + fs == fs;
    } else {
      assert (es + fs)[1..] == es[1..] + fs;
      BreakerAnswersAppend(cfg, BreakerStep(cfg, b, es[0]), es[1..], fs);
    }
  }

  lemma FirstFailure(cfg: Config, p: Peer, b: Breaker, n: nat)
    requires n > 0
    ensures Run(cfg, p, Failures(n)) == Run(cfg, Step(cfg, p, Failure(1)), Failures(n - 1))
    ensures Answers(cfg, p, Failures(n)) == Answers(cfg, Step(cfg, p, Failure(1)), Failures(n - 1))
    ensures BreakerRun(cfg, b, Failures(n)) == BreakerRun(cfg, BreakerStep(cfg, b, Failure(1)), Failures(n - 1))
    ensures BreakerAnswers(cfg, b, Failures(n)) == BreakerAnswers(cfg, BreakerStep(cfg, b, Failure(1)), Failures(n - 1))
  {
    assert Failures(n)[0] == Failure(1) && Failures(n)[1..] == Failures(n - 1);
  }

  lemma OneFailure(cfg: Config, p: Peer)
    requires Inv(cfg, p) && (p.circuit.Closed? || p.circuit.Desensitized?)
    requires p.circuit.Desensitized? ==> p.counter == Some(0)
    ensures var q := Step(cfg, p, Failure(1));
      && Inv(cfg, q) && q.failures == p.failures + 1 && q.lastFailureAt == Some(1)
      && if q.failures < cfg.failureThreshold
         then q.circuit.Closed? || (q.circuit.Desensitized? && q.counter == Some(0))
         else q.circuit.Open?
  {
  }

  /** Where `n` failures in a row lead, from a peer that has already failed `p.failures` times. */
  lemma {:induction false} FailuresInARow(cfg: Config, p: Peer, b: Breaker, n: nat)
    requires Inv(cfg, p) && (p.circuit.Closed? || p.circuit.Desensitized?) && b == Shut(p.failures)
    requires p.circuit.Desensitized? ==> p.counter == Some(0)
    requires n > 0 ==> p.failures + n - 1 < Max(1, cfg.failureThreshold)
    ensures Answers(cfg, p, Failures(n)) == [] == BreakerAnswers(cfg, b, Failures(n))
    ensures var q := Run(cfg, p, Failures(n));
      && Inv(cfg, q) && q.failures == p.failures + n
      && (n > 0 && q.failures < cfg.failureThreshold ==>
            && BreakerRun(cfg, b, Failures(n)) == Shut(q.failures)
            && (q.circuit.Closed? || (q.circuit.Desensitized? && q.counter == Some(0))))
      && (n > 0 && q.failures >= cfg.failureThreshold ==>
            q.circuit.Open? && q.lastFailureAt == Some(1) && BreakerRun(cfg, b, Failures(n)) == Tripped(1))
    decreases n
  {
    if n > 0 {
      var p' := Step(cfg, p, Failure(1));
      FirstFailure(cfg, p, b, n);
      OneFailure(cfg, p);
      if p'.failures < cfg.failureThreshold {
        FailuresInARow(cfg, p', Shut(p'.failures), n - 1);
      } else {
        assert n == 1 && Failures(0) == [];
      }
    }
  }

  lemma {:induction false} AsksAreChecks(cfg: Config, p: Peer, b: Breaker, n: nat, now: int)
    requires p.circuit.Desensitized? && b.Shut?
    ensures Answers(cfg, p, Asks(n, now)) == Checks(p, cfg.desensitizedCapacity.GetOr(0.5), n)
    ensures CountTrue(BreakerAnswers(cfg, b, Asks(n, now))) == n
    decreases n
  {
    if n > 0 {
      assert Asks(n, now)[0] == Ask(now) && Asks(n, now)[1..] == Asks(n - 1, now);
      AsksAreChecks(cfg, Step(cfg, p, Ask(now)), b, n - 1, now);
      var rest := BreakerAnswers(cfg, b, Asks(n - 1, now));
      assert BreakerAnswers(cfg, b, Asks(n, now)) == [true] + rest;
      assert ([true] + rest)[1..] == rest;
    }
  }

  lemma NoCapacityAdmitsNobody(p: Peer, capacity: real, n: nat)
    requires capacity <= 0.0
    ensures CountTrue(Checks(p, capacity, n)) == 0
    decreases n
  {
    if n > 0 {
      NoCapacityAdmitsNobody(p, capacity, n - 1);
      assert Checks(p, capacity, n)[1..] == Checks(p, capacity, n - 1);
    }
  }

  function SoftRun(cfg: Config, calls: nat): seq<Event>
    requires SoftActive(cfg)
  {
    Failures(Max(1, cfg.softThreshold.value)) + Asks(calls, 1)
  }

  /** Ten calls in the soft stage are not all admitted. */
  lemma SoftStageIsVisible(cfg: Config, calls: nat)
    requires !SoftStageIsInvisible(cfg) && calls == 10
    ensures Answers(cfg, FRESH, SoftRun(cfg, calls)) != BreakerAnswers(cfg, Shut(0), SoftRun(cfg, calls))
  {
    var n := Max(1, cfg.softThreshold.value);
    var capacity := cfg.desensitizedCapacity.GetOr(0.5);
    FailuresInARow(cfg, FRESH, Shut(0), n);
    var p := Run(cfg, FRESH, Failures(n));
    var b := BreakerRun(cfg, Shut(0), Failures(n));
    assert p.circuit.Desensitized?;
    AnswersAppend(cfg, FRESH, Failures(n), Asks(calls, 1));
    BreakerAnswersAppend(cfg, Shut(0), Failures(n), Asks(calls, 1));
    AsksAreChecks(cfg, p, b, calls, 1);
    if capacity <= 0.0 {
      NoCapacityAdmitsNobody(p, capacity, calls);
    } else {
      ThrottleIsExact(p, capacity, calls);
      assert capacity * 10.0 < 9.5 && Round(capacity * 10.0) < 10;
    }
    assert Answers(cfg, FRESH, SoftRun(cfg, calls)) == Checks(p, capacity, calls);
    assert BreakerAnswers(cfg, Shut(0), SoftRun(cfg, calls)) == BreakerAnswers(cfg, b, Asks(calls, 1));
  }

  function RecoveryRun(cfg: Config, e: int): seq<Event> {
    var t := 1 + Max(0, cfg.resetTimeoutMs);
    Failures(Max(1, cfg.failureThreshold)) + [Ask(t), Ask(t + e)]
  }

  /** The two calls after the cooldown, one at its end and one `e` later. */
  lemma ProbeThenCall(cfg: Config, p: Peer, t: int, e: int)
    requires cfg.recovery.Some? && e > 0 && cfg.recovery.value(e) >= 0.05
    requires p.circuit.Open? && p.lastFailureAt == Some(1) && t == 1 + Max(0, cfg.resetTimeoutMs)
    ensures Answers(cfg, p, [Ask(t), Ask(t + e)]) == [true] + [true]
    ensures BreakerAnswers(cfg, Tripped(1), [Ask(t), Ask(t + e)]) == [true] + [false]
  {
    var tail := [Ask(t), Ask(t + e)];
    var p' := Step(cfg, p, Ask(t));
    assert IsAvailable(cfg, p, t).0 && p'.circuit.Recovering? && p'.counter == Some(0);
    var c := cfg.recovery.value(e);
    assert c * 10.0 >= 0.5 && Round(c * 10.0) >= 1;
    assert IsAvailable(cfg, p', t + e).0;
    assert tail[1..] == [Ask(t + e)] && tail[1..][1..] == [];
    assert Answers(cfg, p', tail[1..]) == [true];
    assert BreakerAnswers(cfg, HalfOpen, tail[1..]) == [false];
  }

  /** A second call is admitted while the first one, the probe, is still out. */
  lemma RecoveryIsVisible(cfg: Config, e: int)
    requires cfg.recovery.Some? && e > 0 && cfg.recovery.value(e) >= 0.05
    ensures Answers(cfg, FRESH, RecoveryRun(cfg, e)) != BreakerAnswers(cfg, Shut(0), RecoveryRun(cfg, e))
  {
    var n := Max(1, cfg.failureThreshold);
    var t := 1 + Max(0, cfg.resetTimeoutMs);
    var tail := [Ask(t), Ask(t + e)];
    FailuresInARow(cfg, FRESH, Shut(0), n);
    var p := Run(cfg, FRESH, Failures(n));
    AnswersAppend(cfg, FRESH, Failures(n), tail);
    BreakerAnswersAppend(cfg, Shut(0), Failures(n), tail);
    ProbeThenCall(cfg, p, t, e);
    assert RecoveryRun(cfg, e) == Failures(n) + tail;
    assert Answers(cfg, FRESH, RecoveryRun(cfg, e)) == [true] + [true];
    assert BreakerAnswers(cfg, Shut(0), RecoveryRun(cfg, e)) == [true] + [false];
    assert ([true] + [true])[1] != ([true] + [false])[1];
  }

  /** The source promises that without the optional settings the breaker behaves like the old
      three-state one.  Exactly which settings keep that promise: on every run it gives the
      same answers if and only if neither the soft stage nor the recovery curve can be felt. */
  lemma SameAsThreeStatesIff(cfg: Config)
    ensures (forall evs: seq<Event> {:trigger Answers(cfg, FRESH, evs)} ::
               (forall ev :: ev in evs ==> PositiveClock(ev)) ==>
               Answers(cfg, FRESH, evs) == BreakerAnswers(cfg, Shut(0), evs))
      <==> SoftStageIsInvisible(cfg) && RecoveryIsInvisible(cfg)
  {
    if SoftStageIsInvisible(cfg) && RecoveryIsInvisible(cfg) {
      forall evs: seq<Event> | forall ev :: ev in evs ==> PositiveClock(ev)
        ensures Answers(cfg, FRESH, evs) == BreakerAnswers(cfg, Shut(0), evs)
      {
        RunRefines(cfg, FRESH, Shut(0), evs);
      }
    } else if !SoftStageIsInvisible(cfg) {
      SoftStageIsVisible(cfg, 10);
    } else {
      var e: int :| e > 0 && cfg.recovery.value(e) >= 0.05;
      RecoveryIsVisible(cfg, e);
    }
  }

  // ---------------------------------------------------------------------------
  // The class
  // ---------------------------------------------------------------------------

  datatype PeerState = PeerState(
    circuit: Circuit,
    health: Health,
    consecutiveFailures: nat,
    lastFailureAt: Option<int>,
    lastCheckAt: Option<int>,
    recoveringSince: Option<int>)

  class PeerHealthManager {
    const cbConfig: Config
    var states: map<string, PeerState>
    var recoveringInFlight: set<string>
    var capacityCounters: map<string, nat>

    /** What one peer's operations see of the three collections. */
    ghost function View(name: string): Peer
      requires name in states
      reads this
    {
      var s := states[name];
      Peer(s.circuit, s.health, s.consecutiveFailures, s.lastFailureAt, s.lastCheckAt, s.recoveringSince,
           name in recoveringInFlight, if name in capacityCounters then Some(capacityCounters[name]) else None)
    }

    /** Everything that is not about `name` is as it was. */
    twostate predicate OthersUnchanged(name: string) reads this {
      && states.Keys == old(states).Keys
      && forall q :: q in states && q != name ==> View(q) == old(View(q))
    }

    constructor (peers: set<string>, cbConfig: Config)
      ensures states.Keys == peers && this.cbConfig == cbConfig
      ensures forall q :: q in peers ==> View(q) == FRESH
    {
      this.cbConfig := cbConfig;
      states := map q | q in peers :: PeerState(Closed, Unknown, 0, None, None, None);
      recoveringInFlight, capacityCounters := {}, map[];
    }

    method CheckPeerCapacity(name: string, capacity: real) returns (admitted: bool)
      requires name in states
      modifies this`capacityCounters
      ensures (admitted, View(name)) == CheckCapacity(old(View(name)), capacity) && OthersUnchanged(name)
    {
      if capacity >= 1.0 { return true; }
      if capacity <= 0.0 { return false; }
      var counter := if name in capacityCounters then capacityCounters[name] else 0;
      capacityCounters := capacityCounters[name := counter + 1];
      var allowCount := Round(capacity * 10.0);
      return counter % CAPACITY_PERIOD < allowCount;
    }

    /** A peer that is not configured is always available. */
    method IsPeerAvailable(name: string, now: int) returns (available: bool)
      modifies this
      ensures name !in states ==> available
      ensures name in old(states) ==>
        name in states && (available, View(name)) == IsAvailable(cbConfig, old(View(name)), now)
      ensures OthersUnchanged(name)
    {
      if name !in states { return true; }
      var state := states[name];
      if state.circuit == Closed { return true; }
      if state.circuit == Desensitized {
        available := CheckPeerCapacity(name, cbConfig.desensitizedCapacity.GetOr(0.5));
        return;
      }
      if state.circuit == Open {
        if state.lastFailureAt.Some? && state.lastFailureAt.value != 0
           && now - state.lastFailureAt.value >= cbConfig.resetTimeoutMs
        {
          states := states[name := state.(circuit := Recovering, recoveringSince := Some(now))];
          recoveringInFlight := recoveringInFlight + {name};
          capacityCounters := capacityCounters[name := 0];
          return true;
        }
        return false;
      }
      if cbConfig.recovery.Some? {
        var elapsed := now - state.recoveringSince.GetOr(now);
        var capacity := RecoveryCapacity(cbConfig.recovery.value, elapsed);
        if capacity >= RECOVERY_COMPLETE {
          states := states[name := state.(circuit := Closed, consecutiveFailures := 0, health := Healthy,
                                          recoveringSince := None)];
          recoveringInFlight := recoveringInFlight - {name};
          return true;
        }
        available := CheckPeerCapacity(name, capacity);
        return;
      }
      if name in recoveringInFlight { return false; }
      recoveringInFlight := recoveringInFlight + {name};
      return true;
    }

    method RecordPeerSuccess(name: string)
      modifies this
      ensures name in old(states) ==> name in states && View(name) == RecordSuccess(old(View(name)))
      ensures OthersUnchanged(name)
    {
      if name !in states { return; }
      states := states[name := states[name].(consecutiveFailures := 0, health := Healthy, recoveringSince := None)];
      recoveringInFlight := recoveringInFlight - {name};
      capacityCounters := capacityCounters - {name};
      if states[name].circuit != Closed {
        states := states[name := states[name].(circuit := Closed)];
      }
    }

    method RecordPeerFailure(name: string, now: int)
      modifies this
      ensures name in old(states) ==> name in states && View(name) == RecordFailure(cbConfig, old(View(name)), now)
      ensures OthersUnchanged(name)
    {
      if name !in states { return; }
      var state := states[name];
      state := state.(consecutiveFailures := state.consecutiveFailures + 1, lastFailureAt := Some(now));
      recoveringInFlight := recoveringInFlight - {name};
      if state.circuit == Recovering {
        state := state.(circuit := Open, recoveringSince := None);
      } else if state.circuit == Desensitized {
        if state.consecutiveFailures >= cbConfig.failureThreshold {
          state := state.(circuit := Open, health := Unhealthy);
          capacityCounters := capacityCounters - {name};
        }
      } else if state.circuit == Closed {
        if cbConfig.softThreshold.Some? && cbConfig.softThreshold.value < cbConfig.failureThreshold
           && state.consecutiveFailures >= cbConfig.softThreshold.value
           && state.consecutiveFailures < cbConfig.failureThreshold
        {
          state := state.(circuit := Desensitized);
          capacityCounters := capacityCounters[name := 0];
        } else if state.consecutiveFailures >= cbConfig.failureThreshold {
          state := state.(circuit := Open, health := Unhealthy);
        }
      }
      states := states[name := state];
    }

    method OnProbe(name: string, now: int, healthy: bool)
      requires name in states
      modifies this
      ensures name in states && View(name) == ProbeSettled(cbConfig, old(View(name)), now, healthy)
      ensures OthersUnchanged(name)
    {
      states := states[name := states[name].(lastCheckAt := Some(now))];
      if healthy {
        RecordPeerSuccess(name);
      } else {
        states := states[name := states[name].(health := Unhealthy)];
        RecordPeerFailure(name, now);
      }
    }
  }
}
