/** Ordering of transports for outbound sends (src/transport-fallback.ts), over real numbers. */
module TransportFallback {
  import opened StableSort

  datatype Endpoint = Endpoint(url: string, transport: string)

  const PRIORITY_ORDER: seq<string> := ["JSONRPC", "HTTP+JSON", "GRPC"]

  /** `indexOf`, with the length for "absent" */
  function StaticRank(transport: string): (r: nat)
    ensures r <= 3
  {
    if transport == "JSONRPC" then 0
    else if transport == "HTTP+JSON" then 1
    else if transport == "GRPC" then 2
    else 3
  }

  function ByStaticRank(): (Endpoint, Endpoint) -> bool {
    (a: Endpoint, b: Endpoint) => StaticRank(a.transport) < StaticRank(b.transport)
  }

  predicate IsKnown(e: Endpoint) { e.transport in PRIORITY_ORDER }

  function Keep(s: seq<Endpoint>, known: bool): seq<Endpoint> {
    if s == [] then []
    else (if IsKnown(s[0]) == known then [s[0]] else []) + Keep(s[1..], known)
  }

  lemma KnownMeansRanked(e: Endpoint)
    ensures IsKnown(e) <==> StaticRank(e.transport) < 3
  {
    assert PRIORITY_ORDER[0] == "JSONRPC" && PRIORITY_ORDER[1] == "HTTP+JSON" && PRIORITY_ORDER[2] == "GRPC";
  }

  /** The rank is the place in the priority order, or its length. */
  lemma RankIsPlace(transport: string)
    ensures PRIORITY_ORDER == ["JSONRPC", "HTTP+JSON", "GRPC"]
    ensures if transport in PRIORITY_ORDER
            then StaticRank(transport) < |PRIORITY_ORDER| && PRIORITY_ORDER[StaticRank(transport)] == transport
            else StaticRank(transport) == |PRIORITY_ORDER|
  {
  }

  lemma KeepFacts(s: seq<Endpoint>, known: bool)
    ensures forall e :: e in Keep(s, known) <==> e in s && IsKnown(e) == known
  {
  }

  lemma KeepTies(s: seq<Endpoint>, known: bool, x: Endpoint)
    ensures TiesOf(Keep(s, known), ByStaticRank(), x) == if IsKnown(x) == known then TiesOf(s, ByStaticRank(), x) else []
  {
    if s != [] {
      KnownMeansRanked(s[0]);
      KnownMeansRanked(x);
      KeepTies(s[1..], known, x);
      TiesOfAppend(if IsKnown(s[0]) == known then [s[0]] else [], Keep(s[1..], known), ByStaticRank(), x);
    }
  }

  lemma {:induction false} KeepAppend(s: seq<Endpoint>, e: Endpoint, known: bool)
    ensures Keep(s + [e], known) == Keep(s, known) + (if IsKnown(e) == known then [e] else [])
  {
    if s == [] {
      assert s + [e] == [e];
    } else {
      var t := s + [e];
      assert t != [] && t[0] == s[0] && t[1..] == s[1..] + [e];
      KeepAppend(s[1..], e, known);
    }
  }

  /** Buckets of known and unknown transports, the known ones sorted, make up the stable sort of
      the whole list by static rank, in which all unknown transports share the last rank. */
  lemma BucketsAreStableSort(s: seq<Endpoint>)
    ensures Sort(Keep(s, true), ByStaticRank()) + Keep(s, false) == Sort(s, ByStaticRank())
  {
    var before := ByStaticRank();
    var known, unknown := Sort(Keep(s, true), before), Keep(s, false);
    SortIsStable(Keep(s, true), before);
    KeepFacts(s, true);
    KeepFacts(s, false);
    var r := known + unknown;
    forall i, j | 0 <= i < j < |r| ensures !before(r[j], r[i]) {
      if j >= |known| {
        assert r[j] == unknown[j - |known|] && r[j] in unknown;
        KnownMeansRanked(r[j]);
        assert !IsKnown(r[j]) && StaticRank(r[j].transport) >= 3;
        assert StaticRank(r[i].transport) <= 3;
        assert !before(r[j], r[i]);
      } else {
        assert r[j] == known[j] && r[i] == known[i];
        assert Sorted(known, before);
      }
    }
    forall x ensures TiesOf(r, before, x) == TiesOf(s, before, x) {
      TiesOfAppend(known, unknown, before, x);
      KeepTies(s, true, x);
      KeepTies(s, false, x);
    }
    StableSortIsSort(r, s, before);
  }

  method OrderTransports(interfaces: seq<Endpoint>) returns (ordered: seq<Endpoint>)
    ensures ordered == Sort(interfaces, ByStaticRank())
  {
    var known, unknown := [], [];
    for i := 0 to |interfaces|
      invariant known == Keep(interfaces[..i], true) && unknown == Keep(interfaces[..i], false)
    {
      var iface := interfaces[i];
      assert interfaces[..i + 1] == interfaces[..i] + [iface];
      KeepAppend(interfaces[..i], iface, true);
      KeepAppend(interfaces[..i], iface, false);
      if iface.transport in PRIORITY_ORDER {
        known := known + [iface];
      } else {
        unknown := unknown + [iface];
      }
    }
    assert interfaces[..|interfaces|] == interfaces;
    BucketsAreStableSort(interfaces);
    return Sort(known, ByStaticRank()) + unknown;
  }

  // ---------------------------------------------------------------------------
  // Which errors are worth another transport
  // ---------------------------------------------------------------------------

  /** What a send attempt comes back with: a result, or an exception whose message does or does
      not name a transport-level problem. */
  datatype Attempt = Returned(ok: bool, statusCode: int) | Threw(transportLevel: bool)

  predicate IsRetryableTransportError(a: Attempt) {
    match a
    case Returned(_, statusCode) => statusCode >= 500 || statusCode == 429
    case Threw(transportLevel) => transportLevel
  }

  // ---------------------------------------------------------------------------
  // Statistics
  // ---------------------------------------------------------------------------

  /** Recorded latencies are clamped at zero. */
  type Latency = r: real | r >= 0.0

  datatype Outcome = Outcome(ok: bool, latencyMs: Latency)

  /** The last `n` elements. */
  function Suffix<T>(s: seq<T>, n: nat): seq<T> {
    if |s| <= n then s else s[|s| - n..]
  }

  function Successes(rs: seq<Outcome>): (n: nat)
    ensures n <= |rs|
  {
    if rs == [] then 0 else (if rs[0].ok then 1 else 0) + Successes(rs[1..])
  }

  function OkLatency(rs: seq<Outcome>): Latency {
    if rs == [] then 0.0 else (if rs[0].ok then rs[0].latencyMs else 0.0) + OkLatency(rs[1..])
  }

  function SuccessRate(rs: seq<Outcome>): real {
    if rs == [] then 1.0 else Successes(rs) as real / |rs| as real
  }

  function AvgLatency(rs: seq<Outcome>): Latency {
    if Successes(rs) == 0 then 0.0 else OkLatency(rs) / Successes(rs) as real
  }

  /** The score of a list of outcomes; an empty list scores 1. */
  function Score(rs: seq<Outcome>, normalizer: real): real
    requires normalizer >= 1.0
  {
    ScoreOf(SuccessRate(rs), AvgLatency(rs), normalizer)
  }

  function ScoreOf(share: real, average: Latency, normalizer: real): real
    requires normalizer >= 1.0
  {
    var d := average / normalizer;
    assert d >= 0.0;
    share * (1.0 / (1.0 + d))
  }

  lemma DivisionInUnit(a: real, b: real)
    requires 0.0 <= a <= b && b > 0.0
    ensures 0.0 <= a / b <= 1.0
  {
  }

  lemma ProductNonNegative(a: real, b: real)
    requires 0.0 <= a && 0.0 <= b
    ensures 0.0 <= a * b
  {
  }

  lemma ProductInUnit(a: real, b: real)
    requires 0.0 <= a <= 1.0 && 0.0 <= b <= 1.0
    ensures 0.0 <= a * b <= 1.0
  {
    ProductNonNegative(a, b);
    ProductNonNegative(1.0 - a, b);
    assert (1.0 - a) * b == b - a * b;
  }

  /** Scores lie in [0, 1]; nothing beats an untested transport. */
  lemma ScoreInUnitInterval(rs: seq<Outcome>, normalizer: real)
    requires normalizer >= 1.0
    ensures 0.0 <= Score(rs, normalizer) <= 1.0 == Score([], normalizer)
  {
    var d := 1.0 + AvgLatency(rs) / normalizer;
    assert AvgLatency(rs) / normalizer >= 0.0;
    DivisionInUnit(1.0, d);
    if rs != [] { DivisionInUnit(Successes(rs) as real, |rs| as real); }
    ProductInUnit(SuccessRate(rs), 1.0 / d);
    assert AvgLatency([]) == 0.0 && 0.0 / normalizer == 0.0;
  }

  // What the score says about an outcome.

  lemma {:induction false} OneLatency(rs: seq<Outcome>, i: nat, ms: Latency)
    requires i < |rs|
    ensures var rs' := rs[i := Outcome(rs[i].ok, ms)];
      Successes(rs') == Successes(rs) && OkLatency(rs') == OkLatency(rs) + if rs[i].ok then ms - rs[i].latencyMs else 0.0
    decreases i
  {
    var rs' := rs[i := Outcome(rs[i].ok, ms)];
    if i == 0 {
      assert rs'[1..] == rs[1..];
    } else {
      OneLatency(rs[1..], i - 1, ms);
      assert rs'[1..] == rs[1..][i - 1 := Outcome(rs[i].ok, ms)];
    }
  }

  lemma OneSuccess(rs: seq<Outcome>, i: nat)
    requires i < |rs| && rs[i].ok
    ensures Successes(rs) > 0
  {
    if i > 0 { OneSuccess(rs[1..], i - 1); }
  }

  lemma SlowerIsLess(share: real, a: Latency, b: Latency, normalizer: real)
    requires share > 0.0 && a < b && normalizer >= 1.0
    ensures ScoreOf(share, b, normalizer) < ScoreOf(share, a, normalizer)
  {
    var x, y := 1.0 + a / normalizer, 1.0 + b / normalizer;
    QuotientDifference(b, a, normalizer);
    assert a / normalizer >= 0.0;
    ReciprocalLess(x, y);
    var p, q := 1.0 / x, 1.0 / y;
    ProductPositive(share, p - q);
    assert share * (p - q) == share * p - share * q;
  }

  lemma ReciprocalLess(x: real, y: real)
    requires 1.0 <= x < y
    ensures 0.0 < 1.0 / y < 1.0 / x
  {
    var p, q := 1.0 / x, 1.0 / y;
    assert p * x == 1.0 && q * y == 1.0;
    if q >= p { TooLarge(p, q, x, y); }
  }

  lemma TooLarge(p: real, q: real, x: real, y: real)
    requires q >= p && 1.0 <= x < y && p * x == 1.0
    ensures q * y > 1.0
  {
    assert p > 0.0;
    var d, e := y - x, q - p;
    ProductPositive(q, d);
    ProductNonNegative(e, x);
    var qx := q * x;
    assert qx == p * x + e * x;
    assert qx >= 1.0;
    assert q * y == qx + q * d;
  }

  lemma ProductPositive(a: real, b: real)
    requires 0.0 < a && 0.0 < b
    ensures 0.0 < a * b
  {
  }

  lemma QuotientDifference(a: real, b: real, n: real)
    requires n > 0.0
    ensures a / n - b / n == (a - b) / n
    ensures a > b ==> a / n > b / n
  {
    var p, q := a / n, b / n;
    assert p * n == a && q * n == b;
    assert (p - q) * n == a - b;
  }

  /** A slower success lowers the score; how long a failure took makes no difference. */
  lemma LatencyLowersScore(rs: seq<Outcome>, i: nat, ms: Latency, normalizer: real)
    requires normalizer >= 1.0 && i < |rs| && ms > rs[i].latencyMs
    ensures var slower := Score(rs[i := Outcome(rs[i].ok, ms)], normalizer);
      if rs[i].ok then slower < Score(rs, normalizer) else slower == Score(rs, normalizer)
  {
    OneLatency(rs, i, ms);
    var rs' := rs[i := Outcome(rs[i].ok, ms)];
    if rs[i].ok {
      OneSuccess(rs, i);
      var n := Successes(rs) as real;
      assert SuccessRate(rs') == SuccessRate(rs) && SuccessRate(rs) > 0.0;
      QuotientDifference(OkLatency(rs'), OkLatency(rs), n);
      SlowerIsLess(SuccessRate(rs), AvgLatency(rs), AvgLatency(rs'), normalizer);
    }
  }

  ghost predicate AllTook(rs: seq<Outcome>, ms: Latency) { forall r :: r in rs ==> r.latencyMs == ms }

  /** `ms` added up `n` times. */
  function Total(n: nat, ms: Latency): Latency { if n == 0 then 0.0 else Total(n - 1, ms) + ms }

  lemma TotalIsProduct(n: nat, ms: Latency)
    ensures Total(n, ms) == n as real * ms
  {
    if n > 0 {
      TotalIsProduct(n - 1, ms);
      var x := (n - 1) as real;
      assert n as real == x + 1.0 && (x + 1.0) * ms == x * ms + ms;
    }
  }

  lemma {:induction false} LatencyOfAll(rs: seq<Outcome>, ms: Latency)
    requires AllTook(rs, ms)
    ensures OkLatency(rs) == Total(Successes(rs), ms)
    decreases |rs|
  {
    if rs != [] {
      var rest := rs[1..];
      assert rs[0] in rs && forall r :: r in rest ==> r in rs;
      LatencyOfAll(rest, ms);
      HeadCounts(rs);
    }
  }

  lemma HeadCounts(rs: seq<Outcome>)
    requires rs != []
    ensures Successes(rs) == Successes(rs[1..]) + if rs[0].ok then 1 else 0
    ensures OkLatency(rs) == OkLatency(rs[1..]) + if rs[0].ok then rs[0].latencyMs else 0.0
  {
  }

  /** Instant answers score the share of successes. */
  lemma ScoreOfInstantAnswers(rs: seq<Outcome>, normalizer: real)
    requires normalizer >= 1.0 && Successes(rs) > 0 && AllTook(rs, 0.0)
    ensures Score(rs, normalizer) == SuccessRate(rs) == Successes(rs) as real / |rs| as real
  {
    AverageOfAll(rs, 0.0);
    ScoreAnchors(SuccessRate(rs), normalizer);
  }

  /** Answers that take as long as the normaliser score half of it. */
  lemma ScoreAtNormalizer(rs: seq<Outcome>, normalizer: real)
    requires normalizer >= 1.0 && Successes(rs) > 0 && AllTook(rs, normalizer)
    ensures Score(rs, normalizer) + Score(rs, normalizer) == SuccessRate(rs) == Successes(rs) as real / |rs| as real
  {
    AverageOfAll(rs, normalizer);
    ScoreAnchors(SuccessRate(rs), normalizer);
  }

  lemma ScoreAnchors(share: real, normalizer: real)
    requires normalizer >= 1.0
    ensures ScoreOf(share, 0.0, normalizer) == share
    ensures ScoreOf(share, normalizer, normalizer) + ScoreOf(share, normalizer, normalizer) == share
  {
    assert 0.0 / normalizer == 0.0 && normalizer / normalizer == 1.0;
    assert share * 1.0 == share && share * 0.5 + share * 0.5 == share;
  }

  lemma AverageOfAll(rs: seq<Outcome>, ms: Latency)
    requires AllTook(rs, ms) && Successes(rs) > 0
    ensures AvgLatency(rs) == ms
  {
    LatencyOfAll(rs, ms);
    AverageOfTotal(Successes(rs), ms);
  }

  lemma AverageOfTotal(n: nat, ms: Latency)
    requires n > 0
    ensures Total(n, ms) / n as real == ms
  {
    TotalIsProduct(n, ms);
    QuotientOfProduct(n as real, ms);
  }

  lemma QuotientOfProduct(n: real, x: real)
    requires n > 0.0
    ensures n * x / n == x
  {
  }

  // ---------------------------------------------------------------------------
  // Adaptive order
  // ---------------------------------------------------------------------------

  function RecordsOf(records: map<string, seq<Outcome>>, transport: string): seq<Outcome> {
    if transport in records then records[transport] else []
  }

  /** The comparator: higher score first, then static rank. */
  function ByScore(records: map<string, seq<Outcome>>, normalizer: real): (Endpoint, Endpoint) -> bool
    requires normalizer >= 1.0
  {
    (a: Endpoint, b: Endpoint) =>
      var scoreA := Score(RecordsOf(records, a.transport), normalizer);
      var scoreB := Score(RecordsOf(records, b.transport), normalizer);
      scoreA > scoreB || (scoreA == scoreB && StaticRank(a.transport) < StaticRank(b.transport))
  }

  function AdaptiveOrder(
    interfaces: seq<Endpoint>, records: map<string, seq<Outcome>>, normalizer: real): seq<Endpoint>
    requires normalizer >= 1.0
  {
    Sort(interfaces, ByScore(records, normalizer))
  }

  /** Everything ever recorded, per transport. */
  type History = map<string, seq<Outcome>>

  datatype TuningData = TuningData(windowSize: nat, normalizer: real)

  type Tuning = t: TuningData | t.windowSize >= 1 && t.normalizer >= 1.0 witness TuningData(1, 1.0)

  /** What is left of the history in the sliding windows. */
  function Windows(history: History, windowSize: nat): map<string, seq<Outcome>> {
    map transport | transport in history :: Suffix(history[transport], windowSize)
  }

  /** The order in which a client with this history tries the interfaces. */
  function OrderAfter(interfaces: seq<Endpoint>, history: History, tuning: Tuning): seq<Endpoint> {
    AdaptiveOrder(interfaces, Windows(history, tuning.windowSize), tuning.normalizer)
  }

  function ScoreAfter(history: History, tuning: Tuning, transport: string): real {
    Score(Suffix(RecordsOf(history, transport), tuning.windowSize), tuning.normalizer)
  }

  lemma WindowsAreSuffixes(history: History, windowSize: nat, transport: string)
    ensures RecordsOf(Windows(history, windowSize), transport) == Suffix(RecordsOf(history, transport), windowSize)
  {
  }

  /** Interface `k` beats all others: by score, then by static rank, then by its place in the list. */
  ghost predicate BeatsAll(interfaces: seq<Endpoint>, history: History, tuning: Tuning, k: nat) {
    && k < |interfaces|
    && forall j :: 0 <= j < |interfaces| ==>
         var a, b := interfaces[k].transport, interfaces[j].transport;
         var scoreA, scoreB := ScoreAfter(history, tuning, a), ScoreAfter(history, tuning, b);
         || scoreB < scoreA
         || (scoreB == scoreA && (StaticRank(a) < StaticRank(b) || (StaticRank(a) == StaticRank(b) && k <= j)))
  }

  lemma BeatsAllIsFirst(interfaces: seq<Endpoint>, history: History, tuning: Tuning, k: nat)
    ensures BeatsAll(interfaces, history, tuning, k)
      <==> IsFirst(interfaces, ByScore(Windows(history, tuning.windowSize), tuning.normalizer), k)
  {
    forall e: Endpoint
      ensures Score(RecordsOf(Windows(history, tuning.windowSize), e.transport), tuning.normalizer)
        == ScoreAfter(history, tuning, e.transport)
    {
      WindowsAreSuffixes(history, tuning.windowSize, e.transport);
    }
  }

  /** The interface that is tried first is the one that beats all others. */
  lemma FirstTriedIff(interfaces: seq<Endpoint>, history: History, tuning: Tuning, e: Endpoint)
    requires interfaces != []
    ensures OrderAfter(interfaces, history, tuning) != []
    ensures OrderAfter(interfaces, history, tuning)[0] == e
      <==> exists k: nat :: BeatsAll(interfaces, history, tuning, k) && interfaces[k] == e
  {
    var before := ByScore(Windows(history, tuning.windowSize), tuning.normalizer);
    AdaptiveOrderIsStable(interfaces, Windows(history, tuning.windowSize), tuning.normalizer);
    var k := SortHead(interfaces, before);
    BeatsAllIsFirst(interfaces, history, tuning, k);
    assert BeatsAll(interfaces, history, tuning, k);
    forall i: nat | BeatsAll(interfaces, history, tuning, i) ensures i == k {
      BeatsAllIsFirst(interfaces, history, tuning, i);
      FirstIsUnique(interfaces, before, k, i);
    }
  }

  /** Whatever the history, the result is the stable sort by score and then static rank: a
      permutation in which endpoints that tie keep the order they had. */
  lemma AdaptiveOrderIsStable(interfaces: seq<Endpoint>, records: map<string, seq<Outcome>>, normalizer: real)
    requires normalizer >= 1.0
    ensures StrictWeakOrder(ByScore(records, normalizer))
    ensures IsStableSort(AdaptiveOrder(interfaces, records, normalizer), interfaces, ByScore(records, normalizer))
  {
    SortIsStable(interfaces, ByScore(records, normalizer));
  }

  /** With no outcomes recorded for the transports at hand, adaptive order is static order, on
      every list, with duplicates and unknown transports. */
  lemma NoHistoryMeansStaticOrder(interfaces: seq<Endpoint>, records: map<string, seq<Outcome>>, normalizer: real)
    requires normalizer >= 1.0
    requires forall e :: e in interfaces ==> RecordsOf(records, e.transport) == []
    ensures AdaptiveOrder(interfaces, records, normalizer) == Sort(interfaces, ByStaticRank())
  {
    SortCongruence(interfaces, ByScore(records, normalizer), ByStaticRank());
  }

  // ---------------------------------------------------------------------------
  // The class
  // ---------------------------------------------------------------------------

  /** The history with one more outcome; a negative latency counts as zero. */
  function Noted(history: History, transport: string, ok: bool, latencyMs: real): History {
    history[transport := RecordsOf(history, transport) + [Outcome(ok, if latencyMs < 0.0 then 0.0 else latencyMs)]]
  }

  lemma SuffixAppend<T>(s: seq<T>, x: T, n: nat)
    requires n >= 1
    ensures Suffix(s + [x], n) == Suffix(Suffix(s, n) + [x], n)
  {
  }

  class TransportStats {
    const windowSize: nat
    const latencyNormalizer: real
    var records: map<string, seq<Outcome>>
    ghost var history: History

    ghost predicate Valid() reads this {
      && windowSize >= 1 && latencyNormalizer >= 1.0
      && records == Windows(history, windowSize)
    }

    ghost function Tuning(): Tuning
      requires windowSize >= 1 && latencyNormalizer >= 1.0
    {
      TuningData(windowSize, latencyNormalizer)
    }

    constructor (windowSize: int, latencyNormalizer: real)
      ensures Valid() && records == map[] && history == map[]
      ensures this.windowSize == if windowSize < 1 then 1 else windowSize
      ensures this.latencyNormalizer == if latencyNormalizer < 1.0 then 1.0 else latencyNormalizer
    {
      this.windowSize := if windowSize < 1 then 1 else windowSize;
      this.latencyNormalizer := if latencyNormalizer < 1.0 then 1.0 else latencyNormalizer;
      records, history := map[], map[];
    }

    /** Afterwards the list of a transport still holds exactly its last `windowSize` outcomes. */
    method Record(transport: string, ok: bool, latencyMs: real)
      requires Valid()
      modifies this
      ensures Valid()
      ensures history == Noted(old(history), transport, ok, latencyMs)
    {
      var outcome := Outcome(ok, if latencyMs < 0.0 then 0.0 else latencyMs);
      ghost var past := RecordsOf(history, transport);
      var list := RecordsOf(records, transport);
      assert list == Suffix(past, windowSize);
      SuffixAppend(past, outcome, windowSize);
      list := list + [outcome];
      if |list| > windowSize {
        list := list[|list| - windowSize..];
      }
      records := records[transport := list];
      history := history[transport := RecordsOf(history, transport) + [outcome]];
    }

    /** The score is that of the last `windowSize` outcomes of the transport, and lies in [0, 1]. */
    method GetScore(transport: string) returns (score: real)
      requires Valid()
      ensures score == Score(Suffix(RecordsOf(history, transport), windowSize), latencyNormalizer)
      ensures 0.0 <= score <= 1.0
    {
      var rs := RecordsOf(records, transport);
      ScoreInUnitInterval(rs, latencyNormalizer);
      score := Score(rs, latencyNormalizer);
    }

    method Count(transport: string) returns (n: nat)
      requires Valid()
      ensures n == |Suffix(RecordsOf(history, transport), windowSize)|
    {
      n := |RecordsOf(records, transport)|;
    }
  }
}
