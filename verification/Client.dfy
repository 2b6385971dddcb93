/** Sending to a peer: circuit breaker, retry loop and transport fallback loop
    (src/client.ts, src/peer-retry.ts).

    What the network does is an input: each pass of the retry loop comes with the agent card it
    finds and the reply of every transport it may try. */
module Client {
  import opened Common
  import opened StableSort
  import opened TransportFallback
  import opened PeerHealth

  datatype SendResult = SendResult(ok: bool, statusCode: int)

  // ---------------------------------------------------------------------------
  // One pass: the transport fallback loop
  // ---------------------------------------------------------------------------

  /** What one transport does with the message: deliver it, or throw an error that is or is not
      about the transport. */
  datatype TransportReply = Delivered | Fails(transportLevel: bool)

  /** `throws`: the pass throws before it contacts anybody, with or without a network error;
      `interfaces`: the agent card's list, absent when the card cannot be resolved. */
  datatype Pass = Pass(
    throws: Option<bool>,
    interfaces: Option<seq<Endpoint>>,
    replies: nat -> TransportReply,
    factoryDelivers: bool,
    latencies: nat -> real)

  /** `doSendViaTransport`: a transport it does not know is an error result, not an exception. */
  function AttemptOf(e: Endpoint, reply: TransportReply): Attempt {
    if !IsKnown(e) then Returned(false, 500)
    else match reply
         case Delivered => Returned(true, 200)
         case Fails(transportLevel) => Threw(transportLevel)
  }

  /** Success, or a failure that every transport would share. */
  predicate Stops(a: Attempt) {
    (a.Returned? && a.ok) || !IsRetryableTransportError(a)
  }

  function ResultOf(a: Attempt): SendResult {
    match a
    case Returned(ok, statusCode) => SendResult(ok, statusCode)
    case Threw(_) => SendResult(false, 500)
  }

  /** None of the first `n` transports ends the loop. */
  ghost predicate AllFailOver(transports: seq<Endpoint>, replies: nat -> TransportReply, n: nat) {
    n <= |transports| && forall i: nat :: i < n ==> !Stops(AttemptOf(transports[i], replies(i)))
  }

  /** The loop tried the first `n` transports of the list, all but the last of them in vain. */
  ghost predicate IsFallbackRun(
    transports: seq<Endpoint>, replies: nat -> TransportReply, n: nat, result: SendResult)
  {
    && 1 <= n <= |transports| && AllFailOver(transports, replies, n - 1)
    && var last := AttemptOf(transports[n - 1], replies(n - 1));
       if Stops(last) then result == ResultOf(last)
       else n == |transports| && result == SendResult(false, 500)
  }

  /** The peer's outcome history once the first `n` transports have been tried. */
  function HistoryAfter(
    history: History, transports: seq<Endpoint>,
    replies: nat -> TransportReply, latencies: nat -> real, n: nat): History
    requires n <= |transports|
  {
    if n == 0 then history
    else
      var h := HistoryAfter(history, transports, replies, latencies, n - 1);
      var e := transports[n - 1];
      Noted(h, e.transport, AttemptOf(e, replies(n - 1)) == Returned(true, 200), latencies(n - 1))
  }

  /** Contact one transport and record how it went. */
  method TryOne(e: Endpoint, reply: TransportReply, latencyMs: real, stats: TransportStats) returns (a: Attempt)
    requires stats.Valid()
    modifies stats
    ensures stats.Valid() && a == AttemptOf(e, reply)
    ensures stats.history == Noted(old(stats.history), e.transport, a == Returned(true, 200), latencyMs)
  {
    a := AttemptOf(e, reply);
    stats.Record(e.transport, a.Returned? && a.ok, latencyMs);
  }

  /** The fallback loop of `doSendMessage`. */
  method TryTransports(transports: seq<Endpoint>, p: Pass, stats: TransportStats)
    returns (result: SendResult, attempts: nat)
    requires transports != [] && stats.Valid()
    modifies stats
    ensures stats.Valid()
    ensures IsFallbackRun(transports, p.replies, attempts, result)
    ensures stats.history == HistoryAfter(old(stats.history), transports, p.replies, p.latencies, attempts)
  {
    attempts := 0;
    while attempts < |transports|
      invariant 0 <= attempts <= |transports| && stats.Valid()
      invariant AllFailOver(transports, p.replies, attempts)
      invariant stats.history == HistoryAfter(old(stats.history), transports, p.replies, p.latencies, attempts)
    {
      ghost var before := stats.history;
      var attempt := TryOne(transports[attempts], p.replies(attempts), p.latencies(attempts), stats);
      HistoryGrows(old(stats.history), transports, p, attempts, before, stats.history);
      attempts := attempts + 1;
      if (attempt.Returned? && attempt.ok) || !IsRetryableTransportError(attempt) {
        result := ResultOf(attempt);
        StoppedAt(transports, p.replies, attempts, result);
        return;
      }
      OneMoreFails(transports, p.replies, attempts);
    }
    result := SendResult(false, 500);
    EverybodyFailed(transports, p.replies);
  }

  lemma StoppedAt(transports: seq<Endpoint>, replies: nat -> TransportReply, n: nat, result: SendResult)
    requires 1 <= n <= |transports| && AllFailOver(transports, replies, n - 1)
    requires var last := AttemptOf(transports[n - 1], replies(n - 1)); Stops(last) && result == ResultOf(last)
    ensures IsFallbackRun(transports, replies, n, result)
  {
  }

  lemma OneMoreFails(transports: seq<Endpoint>, replies: nat -> TransportReply, n: nat)
    requires 1 <= n <= |transports| && AllFailOver(transports, replies, n - 1)
    requires !Stops(AttemptOf(transports[n - 1], replies(n - 1)))
    ensures AllFailOver(transports, replies, n)
  {
  }

  lemma HistoryGrows(
      start: History, transports: seq<Endpoint>, p: Pass, n: nat,
      before: History, after: History)
    requires n < |transports| && before == HistoryAfter(start, transports, p.replies, p.latencies, n)
    requires after == Noted(before, transports[n].transport,
                            AttemptOf(transports[n], p.replies(n)) == Returned(true, 200), p.latencies(n))
    ensures after == HistoryAfter(start, transports, p.replies, p.latencies, n + 1)
  {
  }

  lemma EverybodyFailed(transports: seq<Endpoint>, replies: nat -> TransportReply)
    requires transports != [] && AllFailOver(transports, replies, |transports|)
    ensures IsFallbackRun(transports, replies, |transports|, SendResult(false, 500))
  {
  }

  /** A failed pass always answers 500, even when it stopped at an authentication or protocol
      error that no transport would have survived; and it succeeds exactly when some transport
      delivers and everything before it failed at transport level.  Whatever was tried before the
      last one failed at transport level, and the last one ended the loop or the list. */
  lemma FallbackOutcome(transports: seq<Endpoint>, replies: nat -> TransportReply, n: nat, result: SendResult)
    requires IsFallbackRun(transports, replies, n, result)
    ensures result == if result.ok then SendResult(true, 200) else SendResult(false, 500)
    ensures result.ok <==> exists i :: DeliversAt(transports, replies, i)
    ensures forall i: nat :: i < n - 1 ==> FailsOver(transports[i], replies(i))
    ensures n < |transports| ==> !FailsOver(transports[n - 1], replies(n - 1))
  {
    forall i: nat | i < |transports| ensures FailsOver(transports[i], replies(i)) <==> !Stops(AttemptOf(transports[i], replies(i))) {
      FailsOverIff(transports[i], replies(i));
    }
    if result.ok {
      assert DeliversAt(transports, replies, n - 1);
    } else if i: nat :| DeliversAt(transports, replies, i) {
      assert Stops(AttemptOf(transports[i], replies(i)));
      assert i == n - 1;
    }
  }

  /** The failures after which another transport is tried: an unknown transport, or an error at
      transport level. */
  predicate FailsOver(e: Endpoint, reply: TransportReply) {
    e.transport !in ["JSONRPC", "HTTP+JSON", "GRPC"] || reply == Fails(true)
  }

  lemma FailsOverIff(e: Endpoint, reply: TransportReply)
    ensures FailsOver(e, reply) <==> !Stops(AttemptOf(e, reply))
  {
  }

  /** Transport `i` delivers the message and everybody before it failed at transport level. */
  ghost predicate DeliversAt(transports: seq<Endpoint>, replies: nat -> TransportReply, i: nat) {
    && i < |transports| && transports[i].transport in ["JSONRPC", "HTTP+JSON", "GRPC"] && replies(i) == Delivered
    && forall j: nat :: j < i ==> FailsOver(transports[j], replies(j))
  }

  /** What the first `n` attempts say about one transport: a success for each delivery, a failure
      for everything else, with the time it took. */
  function OutcomesOf(
    transports: seq<Endpoint>, replies: nat -> TransportReply, latencies: nat -> real, n: nat, transport: string): seq<Outcome>
    requires n <= |transports|
  {
    if n == 0 then []
    else
      OutcomesOf(transports, replies, latencies, n - 1, transport)
      + if transports[n - 1].transport != transport then []
        else
          var ms := latencies(n - 1);
          [Outcome(transport in ["JSONRPC", "HTTP+JSON", "GRPC"] && replies(n - 1) == Delivered, if ms > 0.0 then ms else 0.0)]
  }

  /** The statistics gain exactly the outcomes of the attempts, each under its own transport. */
  lemma {:induction false} StatisticsGainTheAttempts(
      before: History, transports: seq<Endpoint>, replies: nat -> TransportReply, latencies: nat -> real,
      n: nat, transport: string)
    requires n <= |transports|
    ensures RecordsOf(HistoryAfter(before, transports, replies, latencies, n), transport)
      == RecordsOf(before, transport) + OutcomesOf(transports, replies, latencies, n, transport)
    decreases n
  {
    if n == 0 {
      assert RecordsOf(before, transport) + [] == RecordsOf(before, transport);
    } else {
      StatisticsGainTheAttempts(before, transports, replies, latencies, n - 1, transport);
    }
  }

  // ---------------------------------------------------------------------------
  // The retry loop
  // ---------------------------------------------------------------------------

  /** What one pass comes back with. */
  datatype Reply = Answer(result: SendResult) | Exception(network: bool)

  predicate IsRetryable(r: Reply) {
    match r
    case Answer(result) => !result.ok && (result.statusCode == 429 || result.statusCode >= 500)
    case Exception(network) => network
  }

  function AsResult(r: Reply): SendResult {
    match r
    case Answer(result) => result
    case Exception(_) => SendResult(false, 500)
  }

  function Backoff(attempt: nat, baseDelayMs: real, maxDelayMs: real): real {
    var e := baseDelayMs * Pow2(attempt) as real;
    if e < maxDelayMs then e else maxDelayMs
  }

  function CalcDelay(attempt: nat, baseDelayMs: real, maxDelayMs: real, random: real): real {
    var exponential := Backoff(attempt, baseDelayMs, maxDelayMs);
    exponential + random * exponential * 0.1
  }

  /** Status classes: too many requests and server errors are retried, nothing else; a transport
      is given up for another one by the same rule. */
  lemma RetryableStatuses(code: int)
    requires 200 <= code < 600
    ensures IsRetryable(Answer(SendResult(false, code))) <==> code == 429 || code / 100 == 5
    ensures IsRetryableTransportError(Returned(false, code)) <==> code == 429 || code / 100 == 5
  {
  }

  function MinReal(a: real, b: real): real { if a < b then a else b }

  /** The delay starts at the base, doubles from pass to pass, and stops at the maximum; chance
      adds its own share of a tenth of it. */
  lemma DelayDoubles(attempt: nat, baseDelayMs: real, maxDelayMs: real, random: real)
    requires 0.0 <= baseDelayMs && 0.0 <= maxDelayMs
    ensures CalcDelay(0, baseDelayMs, maxDelayMs, 0.0) == MinReal(baseDelayMs, maxDelayMs)
    ensures CalcDelay(attempt + 1, baseDelayMs, maxDelayMs, 0.0)
      == MinReal(2.0 * CalcDelay(attempt, baseDelayMs, maxDelayMs, 0.0), maxDelayMs)
    ensures 10.0 * (CalcDelay(attempt, baseDelayMs, maxDelayMs, random) - CalcDelay(attempt, baseDelayMs, maxDelayMs, 0.0))
      == random * CalcDelay(attempt, baseDelayMs, maxDelayMs, 0.0)
  {
    var b, t := baseDelayMs, Pow2(attempt) as real;
    ProductNonNegative(b, t);
    assert Pow2(attempt + 1) as real == 2.0 * t && b * (2.0 * t) == 2.0 * (b * t);
    assert Pow2(0) as real == 1.0 && b * 1.0 == b;
    var e := Backoff(attempt, baseDelayMs, maxDelayMs);
    assert 0.0 * e * 0.1 == 0.0;
    assert 10.0 * (random * e * 0.1) == random * e;
  }

  /** The delay doubles from pass to pass up to the maximum, plus at most a tenth. */
  lemma DelayBounds(attempt: nat, baseDelayMs: real, maxDelayMs: real, random: real)
    requires 0.0 <= baseDelayMs && 0.0 <= maxDelayMs && 0.0 <= random < 1.0
    ensures Backoff(attempt, baseDelayMs, maxDelayMs)
      <= CalcDelay(attempt, baseDelayMs, maxDelayMs, random) <= maxDelayMs * 1.1
    ensures Backoff(attempt, baseDelayMs, maxDelayMs) <= Backoff(attempt + 1, baseDelayMs, maxDelayMs)
  {
    var b, t := baseDelayMs, Pow2(attempt) as real;
    ProductNonNegative(b, t);
    assert Pow2(attempt + 1) as real == 2.0 * t && b * (2.0 * t) == 2.0 * (b * t);
    var e := Backoff(attempt, baseDelayMs, maxDelayMs);
    ProductNonNegative(random, e);
    ProductNonNegative(1.0 - random, e);
    assert (1.0 - random) * e == e - random * e;
  }

  /** The order in which a pass tries the interfaces of its card. */
  function OrderOf(p: Pass, before: History, tuning: Tuning): seq<Endpoint>
    requires HasFallback(p)
  {
    OrderAfter(p.interfaces.value, before, tuning)
  }

  /** With at most one interface the SDK's own factory sends. */
  predicate HasFallback(p: Pass) { p.throws.None? && p.interfaces.Some? && |p.interfaces.value| >= 2 }

  /** What a pass leaves behind: its reply, how many transports it contacted, and the statistics. */
  datatype PassLog = PassLog(reply: Reply, tries: nat, after: History)

  /** One pass that starts with the statistics `before`. */
  ghost predicate CameBackWith(p: Pass, tuning: Tuning, before: History, log: PassLog) {
    if p.throws.Some? then log == PassLog(Exception(p.throws.value), 0, before)
    else if !HasFallback(p) then
      log == PassLog(Answer(if p.factoryDelivers then SendResult(true, 200) else SendResult(false, 500)), 1, before)
    else
      var transports := OrderOf(p, before, tuning);
      && log.reply.Answer? && IsFallbackRun(transports, p.replies, log.tries, log.reply.result)
      && log.after == HistoryAfter(before, transports, p.replies, p.latencies, log.tries)
  }

  /** The statistics with which pass `i` starts. */
  function Before(start: History, logs: seq<PassLog>, i: nat): History
    requires i <= |logs|
  {
    if i == 0 then start else logs[i - 1].after
  }

  /** The passes so far, each starting with the statistics that the one before it left. */
  ghost predicate SoFar(passes: nat -> Pass, tuning: Tuning, start: History, logs: seq<PassLog>) {
    forall i: nat {:trigger PassAt(passes, tuning, start, logs, i)} :: i < |logs| ==> PassAt(passes, tuning, start, logs, i)
  }

  ghost predicate PassAt(passes: nat -> Pass, tuning: Tuning, start: History, logs: seq<PassLog>, i: nat)
    requires i < |logs|
  {
    CameBackWith(passes(i), tuning, Before(start, logs, i), logs[i])
  }

  lemma OneMorePass(passes: nat -> Pass, tuning: Tuning, start: History, logs: seq<PassLog>, log: PassLog)
    requires SoFar(passes, tuning, start, logs)
    requires CameBackWith(passes(|logs|), tuning, Before(start, logs, |logs|), log)
    ensures SoFar(passes, tuning, start, logs + [log])
  {
    var longer := logs + [log];
    forall i: nat | i < |longer| ensures PassAt(passes, tuning, start, longer, i) {
      SamePass(start, logs, log, i);
      if i < |logs| { assert PassAt(passes, tuning, start, logs, i); }
    }
  }

  lemma SamePass(start: History, logs: seq<PassLog>, log: PassLog, i: nat)
    requires i <= |logs|
    ensures Before(start, logs + [log], i) == Before(start, logs, i)
    ensures (logs + [log])[i] == if i < |logs| then logs[i] else log
  {
  }

  datatype RetryConfig = RetryConfig(maxRetries: int, baseDelayMs: real, maxDelayMs: real)

  /** The pauses between the passes. */
  ghost predicate DelaysFollow(delays: seq<real>, config: RetryConfig, random: nat -> real) {
    forall i: nat {:trigger DelayAt(delays, config, random, i)} :: i < |delays| ==> DelayAt(delays, config, random, i)
  }

  ghost predicate DelayAt(delays: seq<real>, config: RetryConfig, random: nat -> real, i: nat)
    requires i < |delays|
  {
    delays[i] == CalcDelay(i, config.baseDelayMs, config.maxDelayMs, random(i))
  }

  /** The pause after the last pass so far. */
  method Pause(delays: seq<real>, config: RetryConfig, random: nat -> real) returns (extended: seq<real>)
    requires DelaysFollow(delays, config, random)
    ensures DelaysFollow(extended, config, random) && |extended| == |delays| + 1
  {
    var attempt := |delays|;
    extended := delays + [CalcDelay(attempt, config.baseDelayMs, config.maxDelayMs, random(attempt))];
    forall i: nat | i < |extended| ensures DelayAt(extended, config, random, i) {
      if i < attempt { assert DelayAt(delays, config, random, i); }
    }
  }

  /** Apart from chance, which adds up to a tenth, the pauses start at the base delay and double
      up to the maximum. */
  lemma PausesDouble(delays: seq<real>, config: RetryConfig, random: nat -> real, i: nat)
    requires DelaysFollow(delays, config, random) && i + 1 < |delays|
    requires 0.0 <= config.baseDelayMs && 0.0 <= config.maxDelayMs
    ensures random(0) == 0.0 ==> delays[0] == MinReal(config.baseDelayMs, config.maxDelayMs)
    ensures random(i) == random(i + 1) == 0.0 ==> delays[i + 1] == MinReal(2.0 * delays[i], config.maxDelayMs)
  {
    assert DelayAt(delays, config, random, 0) && DelayAt(delays, config, random, i) && DelayAt(delays, config, random, i + 1);
    DelayDoubles(i, config.baseDelayMs, config.maxDelayMs, 0.0);
  }

  ghost predicate AllRetryable(logs: seq<PassLog>) {
    forall i :: 0 <= i < |logs| ==> IsRetryable(logs[i].reply)
  }

  /** The passes of a retry loop: all but the last are worth a retry, and the last one, whose
      result it is, is not or is the last allowed. */
  ghost predicate IsRetryRun(logs: seq<PassLog>, maxRetries: int, result: SendResult) {
    && 1 <= |logs| <= maxRetries + 1
    && AllRetryable(logs[..|logs| - 1])
    && (IsRetryable(logs[|logs| - 1].reply) ==> |logs| == maxRetries + 1)
    && result == AsResult(logs[|logs| - 1].reply)
  }

  lemma RetryRunEnds(earlier: seq<PassLog>, last: PassLog, maxRetries: int)
    requires AllRetryable(earlier) && |earlier| <= maxRetries
    requires IsRetryable(last.reply) ==> |earlier| == maxRetries
    ensures IsRetryRun(earlier + [last], maxRetries, AsResult(last.reply))
  {
    assert (earlier + [last])[..|earlier|] == earlier;
  }

  lemma OneMoreRetryable(earlier: seq<PassLog>, last: PassLog)
    requires AllRetryable(earlier) && IsRetryable(last.reply)
    ensures AllRetryable(earlier + [last])
  {
  }

  /** A settled call, from the statistics `start` on. */
  ghost predicate IsCall(
    passes: nat -> Pass, tuning: Tuning, start: History, maxRetries: nat, result: SendResult, logs: seq<PassLog>)
  {
    SoFar(passes, tuning, start, logs) && IsRetryRun(logs, maxRetries, result)
  }

  // ---------------------------------------------------------------------------
  // How many passes and attempts a call makes
  // ---------------------------------------------------------------------------

  /** A pass is followed by another one exactly if it failed, not by throwing something that is no
      network error, and retries are left.  A failed answer is always retried, also one that came
      from an authentication error. */
  lemma FollowedByAnotherPassIff(
      passes: nat -> Pass, tuning: Tuning, start: History, maxRetries: nat, result: SendResult,
      logs: seq<PassLog>, i: nat)
    requires IsCall(passes, tuning, start, maxRetries, result, logs) && i < |logs|
    ensures i + 1 < |logs|
      <==> !AsResult(logs[i].reply).ok && passes(i).throws != Some(false) && i < maxRetries
  {
    assert PassAt(passes, tuning, start, logs, i);
    RetryableIff(passes(i), tuning, Before(start, logs, i), logs[i]);
    var earlier := logs[..|logs| - 1];
    if i + 1 < |logs| { assert earlier[i] == logs[i]; }
  }

  lemma RetryableIff(p: Pass, tuning: Tuning, before: History, log: PassLog)
    requires CameBackWith(p, tuning, before, log)
    ensures IsRetryable(log.reply) <==> !AsResult(log.reply).ok && p.throws != Some(false)
  {
    if HasFallback(p) { FallbackOutcome(OrderOf(p, before, tuning), p.replies, log.tries, log.reply.result); }
  }

  /** The pass gets the message through: by the factory if there is at most one interface, else by
      some transport in the order of the statistics. */
  ghost predicate Delivers(p: Pass, before: History, tuning: Tuning) {
    && p.throws.None?
    && if p.interfaces.None? || |p.interfaces.value| <= 1 then p.factoryDelivers
       else exists i :: DeliversAt(OrderAfter(p.interfaces.value, before, tuning), p.replies, i)
  }

  lemma PassResult(p: Pass, tuning: Tuning, before: History, log: PassLog)
    requires CameBackWith(p, tuning, before, log)
    ensures AsResult(log.reply) == if Delivers(p, before, tuning) then SendResult(true, 200) else SendResult(false, 500)
    ensures log.tries == 0 <==> p.throws.Some?
  {
    if HasFallback(p) { FallbackOutcome(OrderOf(p, before, tuning), p.replies, log.tries, log.reply.result); }
  }

  /** A call succeeds if and only if one of its passes gets the message through; then that was the
      last one.  Success is a 200 and failure a 500. */
  lemma CallSucceedsIff(
      passes: nat -> Pass, tuning: Tuning, start: History, maxRetries: nat, result: SendResult, logs: seq<PassLog>)
    requires IsCall(passes, tuning, start, maxRetries, result, logs)
    ensures result == if result.ok then SendResult(true, 200) else SendResult(false, 500)
    ensures result.ok <==> Delivers(passes(|logs| - 1), Before(start, logs, |logs| - 1), tuning)
    ensures forall i: nat :: i < |logs| - 1 ==> !Delivers(passes(i), Before(start, logs, i), tuning)
  {
    var k := |logs| - 1;
    assert PassAt(passes, tuning, start, logs, k);
    PassResult(passes(k), tuning, Before(start, logs, k), logs[k]);
    forall i: nat | i < k ensures !Delivers(passes(i), Before(start, logs, i), tuning) {
      assert PassAt(passes, tuning, start, logs, i);
      PassResult(passes(i), tuning, Before(start, logs, i), logs[i]);
      assert logs[..k][i] == logs[i];
    }
  }

  /** The transports contacted in all. */
  function Attempts(logs: seq<PassLog>): nat {
    if logs == [] then 0 else Attempts(logs[..|logs| - 1]) + logs[|logs| - 1].tries
  }

  /** No card that the first `count` passes find lists more than `n` interfaces. */
  ghost predicate CardsAtMost(passes: nat -> Pass, count: nat, n: nat) {
    forall i: nat :: i < count && passes(i).interfaces.Some? ==> |passes(i).interfaces.value| <= n
  }

  lemma PassIsBounded(p: Pass, tuning: Tuning, before: History, log: PassLog, n: nat)
    requires CameBackWith(p, tuning, before, log) && (p.interfaces.Some? ==> |p.interfaces.value| <= n)
    ensures log.tries <= Max(1, n)
  {
    if HasFallback(p) {
      SortPermutes(p.interfaces.value, ByScore(Windows(before, tuning.windowSize), tuning.normalizer));
    }
  }

  lemma {:induction false} AttemptsOfPasses(
      passes: nat -> Pass, tuning: Tuning, start: History, logs: seq<PassLog>, n: nat)
    requires SoFar(passes, tuning, start, logs) && CardsAtMost(passes, |logs|, n)
    ensures Attempts(logs) <= |logs| * Max(1, n)
    decreases |logs|
  {
    if logs != [] {
      var k := |logs| - 1;
      var init := logs[..k];
      forall i: nat | i < k ensures PassAt(passes, tuning, start, init, i) {
        assert PassAt(passes, tuning, start, logs, i);
        assert Before(start, init, i) == Before(start, logs, i) && init[i] == logs[i];
      }
      assert PassAt(passes, tuning, start, logs, k);
      AttemptsOfPasses(passes, tuning, start, init, n);
      PassIsBounded(passes(k), tuning, Before(start, logs, k), logs[k], n);
      assert (k + 1) * Max(1, n) == k * Max(1, n) + Max(1, n);
    }
  }

  /** A settled call contacts each transport of its card at most once per pass, so at most
      `maxRetries + 1` times in all. */
  lemma AttemptsAreBounded(
      passes: nat -> Pass, tuning: Tuning, start: History, maxRetries: nat, result: SendResult,
      logs: seq<PassLog>, n: nat)
    requires IsCall(passes, tuning, start, maxRetries, result, logs) && CardsAtMost(passes, |logs|, n)
    ensures Attempts(logs) <= (maxRetries + 1) * Max(1, n)
  {
    AttemptsOfPasses(passes, tuning, start, logs, n);
    TimesMonotone(|logs|, maxRetries + 1, Max(1, n));
  }

  lemma TimesMonotone(x: int, y: int, m: nat)
    requires x <= y
    ensures x * m <= y * m
  {
    var d := y - x;
    assert y * m == (x + d) * m == x * m + d * m;
  }

  // ---------------------------------------------------------------------------
  // Which transport a retry begins with
  // ---------------------------------------------------------------------------

  /** A retry begins with the interface that beats all others by the statistics as the pass before
      left them, its failures included; so it moves away from `e` exactly if `e` no longer is that
      interface. */
  lemma RetryBeginsWithIff(
      passes: nat -> Pass, tuning: Tuning, start: History, logs: seq<PassLog>, i: nat, e: Endpoint)
    requires SoFar(passes, tuning, start, logs) && i + 1 < |logs| && HasFallback(passes(i + 1))
    ensures var card := passes(i + 1).interfaces.value;
      && 1 <= logs[i + 1].tries
      && OrderOf(passes(i + 1), logs[i].after, tuning) != []
      && (OrderOf(passes(i + 1), logs[i].after, tuning)[0] == e <==>
            exists k: nat :: BeatsAll(card, logs[i].after, tuning, k) && card[k] == e)
  {
    assert Before(start, logs, i + 1) == logs[i].after;
    assert PassAt(passes, tuning, start, logs, i + 1);
    FirstTriedIff(passes(i + 1).interfaces.value, logs[i].after, tuning, e);
  }

  ghost predicate NothingRecorded(card: seq<Endpoint>, history: History) {
    forall d :: d in card ==> RecordsOf(history, d.transport) == []
  }

  /** A pass whose first transport fails for a reason that is not the transport's. */
  ghost predicate StopsAtFirst(p: Pass, card: seq<Endpoint>) {
    p.throws.None? && p.interfaces == Some(card) && |card| >= 2 && p.replies(0) == Fails(false)
  }

  lemma StopsAtOnce(transports: seq<Endpoint>, replies: nat -> TransportReply, n: nat, result: SendResult)
    requires IsFallbackRun(transports, replies, n, result) && Stops(AttemptOf(transports[0], replies(0)))
    ensures n == 1 && result == ResultOf(AttemptOf(transports[0], replies(0)))
  {
    var first := AttemptOf(transports[0], replies(0));
  }

  lemma FirstFailure(p: Pass, card: seq<Endpoint>, tuning: Tuning, before: History, log: PassLog)
    requires StopsAtFirst(p, card) && CameBackWith(p, tuning, before, log)
    ensures var order := OrderOf(p, before, tuning);
      && order != [] && order[0] in card
      && (IsKnown(order[0]) ==>
            && log.tries == 1 && log.reply == Answer(SendResult(false, 500))
            && log.after == Noted(before, order[0].transport, false, p.latencies(0)))
  {
    var order := OrderOf(p, before, tuning);
    SortPermutes(card, ByScore(Windows(before, tuning.windowSize), tuning.normalizer));
    assert order[0] in multiset(order);
    if IsKnown(order[0]) {
      assert AttemptOf(order[0], p.replies(0)) == Threw(false);
      StopsAtOnce(order, p.replies, log.tries, log.reply.result);
      assert HistoryAfter(before, order, p.replies, p.latencies, 0) == before;
    }
  }

  lemma ScoreOfFailure(latency: Latency, tuning: Tuning)
    ensures Score([Outcome(false, latency)], tuning.normalizer) == 0.0 && Score([], tuning.normalizer) == 1.0
  {
    ScoreInUnitInterval([], tuning.normalizer);
    var rs := [Outcome(false, latency)];
    assert rs[1..] == [] && Successes(rs) == 0;
    assert SuccessRate(rs) == 0.0;
  }

  lemma ScoresAfterFirstFailure(
      card: seq<Endpoint>, tuning: Tuning, before: History, transport: string, latencyMs: real, other: string)
    requires RecordsOf(before, transport) == [] && RecordsOf(before, other) == []
    ensures ScoreAfter(Noted(before, transport, false, latencyMs), tuning, other)
      == if other == transport then 0.0 else 1.0
  {
    var latency := if latencyMs < 0.0 then 0.0 else latencyMs;
    ScoreOfFailure(latency, tuning);
    var after := Noted(before, transport, false, latencyMs);
    assert RecordsOf(after, other) == if other == transport then [Outcome(false, latency)] else [];
  }

  /** "Would fail identically on every transport", yet retried on another one: when nothing is
      recorded about a card yet and its preferred transport fails for a reason that is not the
      transport's, the call goes on to a second pass over the same card, if retries are left, and
      that pass begins with a different transport exactly if the card has one. */
  lemma NonTransportErrorMovesOnIff(
      passes: nat -> Pass, tuning: Tuning, start: History, maxRetries: nat, result: SendResult,
      logs: seq<PassLog>, card: seq<Endpoint>)
    requires IsCall(passes, tuning, start, maxRetries, result, logs) && maxRetries >= 1
    requires StopsAtFirst(passes(0), card) && NothingRecorded(card, start)
    requires passes(1).throws.None? && passes(1).interfaces == Some(card)
    requires OrderOf(passes(0), start, tuning) != [] && IsKnown(OrderOf(passes(0), start, tuning)[0])
    ensures |logs| >= 2 && logs[0].tries == 1
    ensures OrderOf(passes(1), logs[0].after, tuning) != []
    ensures var first, second := OrderOf(passes(0), start, tuning)[0], OrderOf(passes(1), logs[0].after, tuning)[0];
      second.transport != first.transport <==> exists d :: d in card && d.transport != first.transport
  {
    var first := OrderOf(passes(0), start, tuning)[0];
    assert PassAt(passes, tuning, start, logs, 0);
    FirstFailure(passes(0), card, tuning, start, logs[0]);
    FollowedByAnotherPassIff(passes, tuning, start, maxRetries, result, logs, 0);
    var after := logs[0].after;
    var second := OrderOf(passes(1), after, tuning)[0];
    SecondChoice(card, tuning, start, first, passes(0).latencies(0), second);
  }

  /** Who comes first once the preferred transport has failed once. */
  lemma SecondChoice(
      card: seq<Endpoint>, tuning: Tuning, start: History, first: Endpoint, latencyMs: real, second: Endpoint)
    requires NothingRecorded(card, start) && first in card
    requires var order := OrderAfter(card, Noted(start, first.transport, false, latencyMs), tuning);
      order != [] && order[0] == second
    ensures second in card
    ensures second.transport != first.transport <==> exists d :: d in card && d.transport != first.transport
  {
    var after := Noted(start, first.transport, false, latencyMs);
    FirstTriedIff(card, after, tuning, second);
    var k: nat :| BeatsAll(card, after, tuning, k) && card[k] == second;
    forall d | d in card
      ensures ScoreAfter(after, tuning, d.transport) == if d.transport == first.transport then 0.0 else 1.0
    {
      ScoresAfterFirstFailure(card, tuning, start, first.transport, latencyMs, d.transport);
    }
    if d :| d in card && d.transport != first.transport {
      var j :| 0 <= j < |card| && card[j] == d;
      assert ScoreAfter(after, tuning, card[j].transport) == 1.0;
    }
  }

  // A concrete call: two interfaces, an authentication error wherever it goes, one retry.

  const JSONRPC := Endpoint("https://peer/a", "JSONRPC")
  const GRPC := Endpoint("https://peer/b", "GRPC")

  function Unauthorized(): Pass {
    Pass(None, Some([JSONRPC, GRPC]), (_: nat) => Fails(false), false, (_: nat) => 5.0)
  }

  lemma StaticOrder(tuning: Tuning)
    ensures OrderAfter([JSONRPC, GRPC], map[], tuning) == [JSONRPC, GRPC]
  {
    var card := [JSONRPC, GRPC];
    NoHistoryMeansStaticOrder(card, Windows(map[], tuning.windowSize), tuning.normalizer);
    assert card[1..] == [GRPC] && [GRPC][1..] == [];
    assert Sort([GRPC], ByStaticRank()) == [GRPC];
    assert Sort(card, ByStaticRank()) == Insert(JSONRPC, [GRPC], ByStaticRank()) == [JSONRPC] + [GRPC];
  }

  lemma OnePassFails(tuning: Tuning, before: History, e: Endpoint)
    requires OrderAfter([JSONRPC, GRPC], before, tuning) != [] && OrderAfter([JSONRPC, GRPC], before, tuning)[0] == e
    requires IsKnown(e)
    ensures CameBackWith(Unauthorized(), tuning, before, FailedAt(before, e.transport))
  {
    var p := Unauthorized();
    var order := OrderOf(p, before, tuning);
    assert AttemptOf(order[0], p.replies(0)) == Threw(false);
    assert Stops(AttemptOf(order[0], p.replies(0)));
    assert AllFailOver(order, p.replies, 0);
    assert HistoryAfter(before, order, p.replies, p.latencies, 0) == before;
  }

  /** The log of a pass that starts with the statistics `before` and fails at `transport`. */
  function FailedAt(before: History, transport: string): PassLog {
    PassLog(Answer(SendResult(false, 500)), 1, Noted(before, transport, false, 5.0))
  }

  lemma TwoFailedPasses(passes: nat -> Pass, tuning: Tuning, a: PassLog, b: PassLog)
    requires CameBackWith(passes(0), tuning, map[], a) && CameBackWith(passes(1), tuning, a.after, b)
    requires IsRetryable(a.reply) && b.reply == Answer(SendResult(false, 500))
    ensures IsCall(passes, tuning, map[], 1, SendResult(false, 500), [a, b])
  {
    assert [] + [a] == [a] && [a] + [b] == [a, b];
    OneMorePass(passes, tuning, map[], [], a);
    OneMorePass(passes, tuning, map[], [a], b);
    RetryRunEnds([a], b, 1);
  }

  /** A call that meets the same authentication error on JSONRPC first and, retried, on GRPC. */
  lemma AuthenticationErrorIsRetriedElsewhere(tuning: Tuning)
    ensures var first := FailedAt(map[], "JSONRPC");
      var logs := [first, FailedAt(first.after, "GRPC")];
      && IsCall((_: nat) => Unauthorized(), tuning, map[], 1, SendResult(false, 500), logs)
      && OrderOf(Unauthorized(), map[], tuning)[..1] == [JSONRPC]
      && OrderOf(Unauthorized(), first.after, tuning)[..1] == [GRPC]
  {
    var first := FailedAt(map[], "JSONRPC");
    assert PRIORITY_ORDER[0] == "JSONRPC" && PRIORITY_ORDER[2] == "GRPC";
    StaticOrder(tuning);
    OnePassFails(tuning, map[], JSONRPC);
    SecondIsGrpc(tuning, first.after);
    OnePassFails(tuning, first.after, GRPC);
    TwoFailedPasses((_: nat) => Unauthorized(), tuning, first, FailedAt(first.after, "GRPC"));
  }

  lemma SecondIsGrpc(tuning: Tuning, h1: History)
    requires h1 == Noted(map[], "JSONRPC", false, 5.0)
    ensures OrderAfter([JSONRPC, GRPC], h1, tuning) != [] && OrderAfter([JSONRPC, GRPC], h1, tuning)[0] == GRPC
  {
    var card := [JSONRPC, GRPC];
    FirstTriedIff(card, h1, tuning, GRPC);
    var second := OrderAfter(card, h1, tuning)[0];
    assert JSONRPC in card && GRPC in card;
    SecondChoice(card, tuning, map[], JSONRPC, 5.0, second);
    assert second == GRPC by { assert GRPC.transport != JSONRPC.transport; }
  }

  // ---------------------------------------------------------------------------
  // The class
  // ---------------------------------------------------------------------------

  /** How one call of `sendMessage` ends: refused by the breaker with a 503, settled with a
      result, or with an exception. */
  datatype CallOutcome = Refused | Settled(result: SendResult) | Raised

  /** The breaker's view of the peer after a call: one question and, if the call settles,
      exactly one outcome. */
  function BreakerAfter(cfg: Config, p: Peer, askedAt: int, recordedAt: int, outcome: CallOutcome): Peer {
    var asked := IsAvailable(cfg, p, askedAt).1;
    match outcome
    case Refused => asked
    case Settled(result) => if result.ok then RecordSuccess(asked) else RecordFailure(cfg, asked, recordedAt)
    case Raised => asked
  }

  // What a sequence of calls does to the breaker.

  datatype Call = Call(askedAt: int, recordedAt: int, outcome: CallOutcome)

  function AfterCalls(cfg: Config, p: Peer, calls: seq<Call>): Peer
    decreases |calls|
  {
    if calls == [] then p
    else AfterCalls(cfg, BreakerAfter(cfg, p, calls[0].askedAt, calls[0].recordedAt, calls[0].outcome), calls[1..])
  }

  /** A call asks once; if it settles, it reports once. */
  function EventsOf(call: Call): seq<Event> {
    [Ask(call.askedAt)]
    + if !call.outcome.Settled? then []
      else [if call.outcome.result.ok then Success else Failure(call.recordedAt)]
  }

  /** When the settled calls failed since the last one that delivered. */
  function FailedSinceDelivery(calls: seq<Call>): seq<int> {
    if calls == [] then []
    else
      var earlier, last := FailedSinceDelivery(calls[..|calls| - 1]), calls[|calls| - 1];
      if !last.outcome.Settled? then earlier
      else if last.outcome.result.ok then []
      else earlier + [last.recordedAt]
  }

  predicate TooMany(cfg: Config, failed: seq<int>) { failed != [] && |failed| >= cfg.failureThreshold }

  /** The cooldown after the last of these failures is over at `now`. */
  predicate CooldownOver(cfg: Config, failed: seq<int>, now: int)
    requires failed != []
  {
    failed[|failed| - 1] != 0 && now - failed[|failed| - 1] >= cfg.resetTimeoutMs
  }

  /** Since the last settled call, which left the breaker open, another one has been let through. */
  predicate ProbeIsOut(cfg: Config, calls: seq<Call>) {
    if calls == [] then false
    else
      var init, last := calls[..|calls| - 1], calls[|calls| - 1];
      && !last.outcome.Settled?
      && (ProbeIsOut(cfg, init)
          || (TooMany(cfg, FailedSinceDelivery(init)) && CooldownOver(cfg, FailedSinceDelivery(init), last.askedAt)))
  }

  lemma OneCall(cfg: Config, p: Peer, call: Call)
    ensures BreakerAfter(cfg, p, call.askedAt, call.recordedAt, call.outcome) == Run(cfg, p, EventsOf(call))
  {
    var asked := Step(cfg, p, Ask(call.askedAt));
    var rest := EventsOf(call)[1..];
    assert EventsOf(call)[0] == Ask(call.askedAt) && Run(cfg, p, EventsOf(call)) == Run(cfg, asked, rest);
    if rest == [] {
      assert Run(cfg, asked, rest) == asked;
    } else {
      assert rest[1..] == [];
      assert Run(cfg, asked, rest) == Run(cfg, Step(cfg, asked, rest[0]), []) == Step(cfg, asked, rest[0]);
    }
  }

  lemma {:induction false} CallsSnoc(cfg: Config, p: Peer, calls: seq<Call>, call: Call)
    ensures AfterCalls(cfg, p, calls + [call])
      == BreakerAfter(cfg, AfterCalls(cfg, p, calls), call.askedAt, call.recordedAt, call.outcome)
    decreases |calls|
  {
    if calls == [] {
      assert [] + [call] == [call] && [call][1..] == [];
    } else {
      assert (calls + [call])[0] == calls[0] && (calls + [call])[1..] == calls[1..] + [call];
      CallsSnoc(cfg, BreakerAfter(cfg, p, calls[0].askedAt, calls[0].recordedAt, calls[0].outcome), calls[1..], call);
    }
  }

  /** The peer's entry after some calls: what it remembers is the failed ones. */
  ghost predicate MatchesCalls(cfg: Config, p: Peer, calls: seq<Call>, m: Memory) {
    && PeerHealth.Inv(cfg, p) && FollowsFrom(cfg, p, m)
    && m.failures == FailedSinceDelivery(calls) && (m.probing.Some? <==> ProbeIsOut(cfg, calls))
  }

  lemma OneCallMatches(cfg: Config, p: Peer, calls: seq<Call>, call: Call, m: Memory)
    requires cfg.recovery.None? && MatchesCalls(cfg, p, calls, m)
    ensures MatchesCalls(cfg, Run(cfg, p, EventsOf(call)), calls + [call], RememberAll(cfg, m, EventsOf(call)))
  {
    var evs := EventsOf(call);
    RunKeepsInv(cfg, p, evs);
    RunFollows(cfg, p, m, evs);
    assert (calls + [call])[..|calls|] == calls;
    var asked := Remember(cfg, m, Ask(call.askedAt));
    var rest := evs[1..];
    assert RememberAll(cfg, m, evs) == RememberAll(cfg, asked, rest);
    if rest != [] {
      assert rest[1..] == [];
      assert RememberAll(cfg, asked, rest) == Remember(cfg, asked, rest[0]);
    }
    assert asked.failures == m.failures;
  }

  lemma {:induction false} CallsMatch(cfg: Config, calls: seq<Call>) returns (m: Memory)
    requires cfg.recovery.None?
    ensures MatchesCalls(cfg, AfterCalls(cfg, FRESH, calls), calls, m)
    decreases |calls|
  {
    if calls == [] {
      m := NOTHING;
    } else {
      var init, last := calls[..|calls| - 1], calls[|calls| - 1];
      assert calls == init + [last];
      var m0 := CallsMatch(cfg, init);
      CallsSnoc(cfg, FRESH, init, last);
      OneCall(cfg, AfterCalls(cfg, FRESH, init), last);
      OneCallMatches(cfg, AfterCalls(cfg, FRESH, init), init, last, m0);
      m := RememberAll(cfg, m0, EventsOf(last));
    }
  }

  /** Without gradual recovery: once the calls since the last delivered one have failed
      `failureThreshold` times, the next call is refused if and only if the cooldown since the
      last failure is not over or a probe is still out; before, and below the soft threshold, no
      call is refused. */
  lemma NextCallRefusedIff(cfg: Config, calls: seq<Call>, now: int)
    requires cfg.recovery.None?
    ensures var failed := FailedSinceDelivery(calls);
      var admitted := IsAvailable(cfg, AfterCalls(cfg, FRESH, calls), now).0;
      && (TooMany(cfg, failed) ==> (!admitted <==> ProbeIsOut(cfg, calls) || !CooldownOver(cfg, failed, now)))
      && (!TooMany(cfg, failed) && BelowSoft(cfg, |failed|) ==> admitted)
  {
    var m := CallsMatch(cfg, calls);
  }

  predicate Retries(retry: Option<RetryConfig>) { retry.Some? && retry.value.maxRetries > 0 }

  function RetriesOf(retry: Option<RetryConfig>): nat {
    if Retries(retry) then retry.value.maxRetries else 0
  }

  class A2AClient {
    /** Statistics of the peer that is sent to. */
    const stats: TransportStats

    constructor (stats: TransportStats)
      ensures this.stats == stats
    {
      this.stats := stats;
    }

    /** One pass.  The list of transports is in adaptive order whichever of the two orderings the
        code picks. */
    method DoSendMessage(p: Pass) returns (reply: Reply, attempts: nat)
      requires stats.Valid()
      modifies stats
      ensures stats.Valid()
      ensures CameBackWith(p, stats.Tuning(), old(stats.history), PassLog(reply, attempts, stats.history))
    {
      if p.throws.Some? {
        return Exception(p.throws.value), 0;
      }
      var transports := [];
      if p.interfaces.Some? {
        transports := OrderInterfaces(p.interfaces.value);
      }
      if |transports| <= 1 {
        return Answer(if p.factoryDelivers then SendResult(true, 200) else SendResult(false, 500)), 1;
      }
      var result;
      result, attempts := TryTransports(transports, p, stats);
      reply := Answer(result);
    }

    method OrderInterfaces(interfaces: seq<Endpoint>) returns (transports: seq<Endpoint>)
      requires stats.Valid()
      ensures transports == OrderAfter(interfaces, stats.history, stats.Tuning())
      ensures |transports| == |interfaces|
    {
      var anyStats := false;
      for i := 0 to |interfaces|
        invariant !anyStats ==> forall j :: 0 <= j < i ==> RecordsOf(stats.records, interfaces[j].transport) == []
      {
        var n := stats.Count(interfaces[i].transport);
        if n > 0 { anyStats := true; }
      }
      SortPermutes(interfaces, ByScore(stats.records, stats.latencyNormalizer));
      if anyStats {
        transports := AdaptiveOrder(interfaces, stats.records, stats.latencyNormalizer);
      } else {
        NoHistoryMeansStaticOrder(interfaces, stats.records, stats.latencyNormalizer);
        transports := OrderTransports(interfaces);
      }
    }

    /** One more pass of the retry loop. */
    method NextPass(passes: nat -> Pass, attempt: nat, ghost start: History, ghost earlier: seq<PassLog>)
      returns (reply: Reply, ghost log: PassLog)
      requires stats.Valid() && SoFar(passes, stats.Tuning(), start, earlier)
      requires attempt == |earlier| && stats.history == Before(start, earlier, attempt)
      modifies stats
      ensures stats.Valid() && SoFar(passes, stats.Tuning(), start, earlier + [log])
      ensures log.reply == reply && log.after == stats.history
    {
      ghost var tuning := stats.Tuning();
      var n;
      reply, n := DoSendMessage(passes(attempt));
      log := PassLog(reply, n, stats.history);
      OneMorePass(passes, tuning, start, earlier, log);
    }

    /** `withRetry(doSend, retryConfig)`.  `random` is what `Math.random` answers. */
    method SendWithRetry(passes: nat -> Pass, config: RetryConfig, random: nat -> real)
      returns (result: SendResult, delays: seq<real>, ghost logs: seq<PassLog>)
      requires stats.Valid() && config.maxRetries >= 0
      modifies stats
      ensures stats.Valid()
      ensures IsCall(passes, stats.Tuning(), old(stats.history), config.maxRetries, result, logs)
      ensures stats.history == Before(old(stats.history), logs, |logs|)
      ensures |delays| == |logs| - 1 && DelaysFollow(delays, config, random)
    {
      ghost var start, tuning := stats.history, stats.Tuning();
      delays, logs := [], [];
      result := SendResult(false, 500);
      for attempt := 0 to config.maxRetries + 1
        invariant stats.Valid() && |logs| == attempt
        invariant DelaysFollow(delays, config, random)
        invariant attempt <= config.maxRetries ==> |delays| == attempt && AllRetryable(logs)
        invariant attempt > config.maxRetries ==>
          |delays| == config.maxRetries && IsRetryRun(logs, config.maxRetries, result)
        invariant SoFar(passes, tuning, start, logs)
        invariant stats.history == Before(start, logs, attempt)
      {
        ghost var earlier := logs;
        var reply, log := NextPass(passes, attempt, start, logs);
        logs := logs + [log];
        result := AsResult(reply);
        if !IsRetryable(reply) {
          RetryRunEnds(earlier, log, config.maxRetries);
          return;
        }
        if attempt == config.maxRetries { RetryRunEnds(earlier, log, config.maxRetries); }
        if attempt < config.maxRetries {
          OneMoreRetryable(earlier, log);
          delays := Pause(delays, config, random);
        }
      }
    }

    /** The passes of an admitted call, with or without the retry loop. */
    method SendAdmitted(passes: nat -> Pass, retry: Option<RetryConfig>, random: nat -> real)
      returns (outcome: CallOutcome, ghost logs: seq<PassLog>)
      requires stats.Valid()
      modifies stats
      ensures stats.Valid() && !outcome.Refused?
      ensures outcome.Raised? <==> !Retries(retry) && passes(0).throws.Some?
      ensures outcome.Raised? ==> stats.history == old(stats.history)
      ensures outcome.Settled? ==>
        && IsCall(passes, stats.Tuning(), old(stats.history), RetriesOf(retry), outcome.result, logs)
        && stats.history == logs[|logs| - 1].after
    {
      if retry.Some? && retry.value.maxRetries > 0 {
        var result, delays;
        result, delays, logs := SendWithRetry(passes, retry.value, random);
        return Settled(result), logs;
      }
      ghost var start, tuning := stats.history, stats.Tuning();
      var reply, n := DoSendMessage(passes(0));
      if reply.Exception? { return Raised, []; }
      ghost var log := PassLog(reply, n, stats.history);
      OneMorePass(passes, tuning, start, [], log);
      RetryRunAlone(log);
      return Settled(reply.result), [log];
    }

    /** A whole call.  Nothing else touches the breaker in between.  A peer that the health manager
        does not know is always available and leaves no trace there. */
    method SendMessage(
        name: string, passes: nat -> Pass, retry: Option<RetryConfig>, health: PeerHealthManager,
        askedAt: int, recordedAt: int, random: nat -> real)
      returns (outcome: CallOutcome, ghost logs: seq<PassLog>)
      requires stats.Valid()
      modifies stats, health
      ensures stats.Valid() && health.OthersUnchanged(name)
      ensures name in old(health.states) ==>
        health.View(name) == BreakerAfter(health.cbConfig, old(health.View(name)), askedAt, recordedAt, outcome)
      ensures name in old(health.states) && outcome.Settled? ==>
        var asked, after := IsAvailable(health.cbConfig, old(health.View(name)), askedAt).1, health.View(name);
        if outcome.result.ok then after.circuit.Closed? && after.failures == 0 && after.lastFailureAt == asked.lastFailureAt
        else after.failures == asked.failures + 1 && after.lastFailureAt == Some(recordedAt)
      ensures name in old(health.states) && !outcome.Settled? ==>
        health.View(name) == IsAvailable(health.cbConfig, old(health.View(name)), askedAt).1
      ensures outcome.Refused? <==>
        name in old(health.states) && !IsAvailable(health.cbConfig, old(health.View(name)), askedAt).0
      ensures outcome.Raised? <==> !outcome.Refused? && !Retries(retry) && passes(0).throws.Some?
      ensures !outcome.Settled? ==> stats.history == old(stats.history)
      ensures outcome.Settled? ==>
        && IsCall(passes, stats.Tuning(), old(stats.history), RetriesOf(retry), outcome.result, logs)
        && stats.history == logs[|logs| - 1].after
    {
      var available := health.IsPeerAvailable(name, askedAt);
      if !available { return Refused, []; }
      outcome, logs := SendAdmitted(passes, retry, random);
      if outcome.Settled? {
        if outcome.result.ok {
          health.RecordPeerSuccess(name);
        } else {
          health.RecordPeerFailure(name, recordedAt);
        }
      }
    }
  }

  lemma RetryRunAlone(log: PassLog)
    requires log.reply.Answer?
    ensures IsRetryRun([log], 0, log.reply.result)
  {
    assert [log][..0] == [];
  }
}
