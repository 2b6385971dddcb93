/** Rule-based routing and Hill scoring (src/routing-rules.ts), over real numbers and natural
    Hill coefficients.  Whether a regular expression matches a text is a parameter. */
module RoutingRules {
  import opened Common
  import opened StableSort

  datatype Rule = Rule(
    name: string, pattern: string, tags: seq<string>, skills: seq<string>,
    peer: string, agentId: Option<string>, priority: real)

  datatype Message = Message(text: string, tags: seq<string>)

  type Regex = (string, string) -> bool

  const PATTERN_LIMIT := 500
  const TEXT_LIMIT := 10000

  function Truncated(text: string): string { if |text| <= TEXT_LIMIT then text else text[..TEXT_LIMIT] }

  function SkillsOf(peerSkills: map<string, seq<string>>, peer: string): seq<string> {
    if peer in peerSkills then peerSkills[peer] else []
  }

  /** How many of `wanted` are in `offered`. */
  function Hits(wanted: seq<string>, offered: seq<string>): (n: nat)
    ensures n <= |wanted|
    ensures n > 0 <==> exists w :: w in wanted && w in offered
  {
    if wanted == [] then 0
    else
      assert forall w :: w in wanted <==> w == wanted[0] || w in wanted[1..];
      (if wanted[0] in offered then 1 else 0) + Hits(wanted[1..], offered)
  }

  predicate PatternMatches(rule: Rule, m: Message, re: Regex) {
    |rule.pattern| <= PATTERN_LIMIT && re(rule.pattern, Truncated(m.text))
  }

  /** All criteria that the rule states must hold. */
  predicate MatchesRule(rule: Rule, m: Message, peerSkills: map<string, seq<string>>, re: Regex) {
    && (rule.pattern != [] ==> PatternMatches(rule, m, re))
    && (rule.tags != [] ==> Hits(rule.tags, m.tags) > 0)
    && (rule.skills != [] ==> Hits(rule.skills, SkillsOf(peerSkills, rule.peer)) > 0)
  }

  /** When a rule matches: its pattern, if any, is at most 500 characters long and matches the
      first 10000 of the text; it shares a tag with the message, if it names any; and its peer
      offers one of the skills, if it names any. */
  lemma MatchesIff(rule: Rule, m: Message, peerSkills: map<string, seq<string>>, re: Regex)
    ensures MatchesRule(rule, m, peerSkills, re) <==>
      && (rule.pattern == "" || (|rule.pattern| <= 500 && re(rule.pattern, if |m.text| < 10000 then m.text else m.text[..10000])))
      && (rule.tags == [] || exists t :: t in rule.tags && t in m.tags)
      && (rule.skills == [] || exists k :: k in rule.skills && rule.peer in peerSkills && k in peerSkills[rule.peer])
  {
    assert |m.text| == 10000 ==> m.text[..10000] == m.text;
  }

  // ---------------------------------------------------------------------------
  // Priority order
  // ---------------------------------------------------------------------------

  function ByPriority(): (Rule, Rule) -> bool { (a: Rule, b: Rule) => a.priority > b.priority }

  /** The sort at the end of `parseRoutingRules`. */
  function InPriorityOrder(rules: seq<Rule>): seq<Rule> { Sort(rules, ByPriority()) }

  function FirstMatch(rules: seq<Rule>, matches: Rule -> bool): Option<Rule> {
    if rules == [] then None
    else if matches(rules[0]) then Some(rules[0])
    else FirstMatch(rules[1..], matches)
  }

  /** Rule `i` matches, no matching rule has a higher priority, and none of the same priority
      stands before it. */
  ghost predicate IsBest(rules: seq<Rule>, matches: Rule -> bool, i: nat) {
    && i < |rules| && matches(rules[i])
    && forall j :: 0 <= j < |rules| && matches(rules[j]) ==>
         rules[j].priority < rules[i].priority || (rules[j].priority == rules[i].priority && i <= j)
  }

  lemma FirstMatchOfInsert(x: Rule, s: seq<Rule>, matches: Rule -> bool)
    requires Sorted(s, ByPriority())
    ensures var r := FirstMatch(Insert(x, s, ByPriority()), matches);
      var f := FirstMatch(s, matches);
      r == if matches(x) && (f.None? || f.value.priority <= x.priority) then Some(x) else f
  {
    if s != [] && s[0].priority > x.priority {
      FirstMatchOfInsert(x, s[1..], matches);
      var t := Insert(x, s[1..], ByPriority());
      assert ([s[0]] + t)[1..] == t;
    } else {
      assert ([x] + s)[1..] == s;
      FirstMatchIsBelowHead(s, matches);
    }
  }

  lemma FirstMatchIsBelowHead(s: seq<Rule>, matches: Rule -> bool)
    requires Sorted(s, ByPriority())
    ensures FirstMatch(s, matches).Some? ==> s != [] && FirstMatch(s, matches).value.priority <= s[0].priority
  {
    if s != [] && !matches(s[0]) {
      FirstMatchIsBelowHead(s[1..], matches);
    }
  }

  lemma {:induction false} FirstMatchIsBest(rules: seq<Rule>, matches: Rule -> bool)
    ensures var r := FirstMatch(InPriorityOrder(rules), matches);
      && (r.None? <==> forall j :: 0 <= j < |rules| ==> !matches(rules[j]))
      && (r.Some? ==> exists i: nat :: IsBest(rules, matches, i) && rules[i] == r.value)
  {
    if rules != [] {
      var x, rest := rules[0], rules[1..];
      FirstMatchIsBest(rest, matches);
      SortIsStable(rest, ByPriority());
      FirstMatchOfInsert(x, InPriorityOrder(rest), matches);
      var f := FirstMatch(InPriorityOrder(rest), matches);
      assert forall j :: 0 < j < |rules| ==> rules[j] == rest[j - 1];
      assert forall j :: 0 <= j < |rest| ==> rest[j] == rules[j + 1];
      if f.Some? {
        var i: nat :| IsBest(rest, matches, i) && rest[i] == f.value;
        if matches(x) && f.value.priority <= x.priority {
          assert IsBest(rules, matches, 0);
        } else {
          assert IsBest(rules, matches, i + 1);
        }
      } else if matches(x) {
        assert IsBest(rules, matches, 0);
      }
    }
  }

  // ---------------------------------------------------------------------------
  // The Hill equation
  // ---------------------------------------------------------------------------

  function Pow(x: real, n: nat): real { if n == 0 then 1.0 else x * Pow(x, n - 1) }

  function HillScore(affinity: real, n: nat, kd: real): real {
    if affinity <= 0.0 then 0.0
    else if kd <= 0.0 then 1.0
    else
      PowPositive(affinity, n);
      PowPositive(kd, n);
      Pow(affinity, n) / (Pow(kd, n) + Pow(affinity, n))
  }

  lemma PowPositive(x: real, n: nat)
    requires x > 0.0
    ensures Pow(x, n) > 0.0
  {
  }

  lemma NonNegativeProduct(a: real, b: real)
    requires a >= 0.0 && b >= 0.0
    ensures a * b >= 0.0
  {
  }

  lemma PositiveProduct(a: real, b: real)
    requires a > 0.0 && b > 0.0
    ensures a * b > 0.0
  {
  }

  lemma MulStrict(a: real, b: real, c: real, d: real)
    requires 0.0 < a < b && 0.0 < c <= d
    ensures a * c < b * d
  {
    PositiveProduct(b - a, c);
    NonNegativeProduct(b, d - c);
    assert b * d - a * c == (b - a) * c + b * (d - c);
  }

  lemma PowMonotone(a: real, b: real, n: nat)
    requires 0.0 < a < b && n >= 1
    ensures Pow(a, n) < Pow(b, n)
  {
    PowPositive(a, n - 1);
    if n > 1 {
      PowMonotone(a, b, n - 1);
      MulStrict(a, b, Pow(a, n - 1), Pow(b, n - 1));
    } else {
      assert Pow(a, 1) == a * 1.0 && Pow(b, 1) == b * 1.0;
    }
  }

  lemma SaturationMonotone(k: real, x: real, y: real)
    requires k > 0.0 && 0.0 < x < y
    ensures 0.0 < x / (k + x) < y / (k + y)
  {
    CrossProducts(k, x, y, k + x, k + y);
    DivisionLess(x, k + x, y, k + y);
  }

  lemma CrossProducts(k: real, x: real, y: real, b: real, d: real)
    requires k > 0.0 && 0.0 < x < y && b == k + x && d == k + y
    ensures x * d < y * b
  {
    PositiveProduct(y - x, k);
    assert x * d == x * k + x * y;
    assert y * b == y * k + x * y;
    assert (y - x) * k == y * k - x * k;
  }

  lemma SaturationInUnit(k: real, y: real)
    requires k > 0.0 && 0.0 < y
    ensures 0.0 < y / (k + y) < 1.0
  {
    var q := y / (k + y);
    assert q * (k + y) == y;
    PositiveFactor(q, k + y);
    if q >= 1.0 { ProductAtLeast(q, k + y); }
  }

  lemma HalfSaturation(k: real)
    requires k > 0.0
    ensures k / (k + k) == 0.5
  {
    assert (k + k) * 0.5 == k;
  }

  lemma ProductAtLeast(a: real, b: real)
    requires a >= 1.0 && b > 0.0
    ensures a * b >= b
  {
    NonNegativeProduct(a - 1.0, b);
    assert (a - 1.0) * b == a * b - b;
  }

  lemma DivisionLess(a: real, b: real, c: real, d: real)
    requires a > 0.0 && b > 0.0 && c > 0.0 && d > 0.0 && a * d < c * b
    ensures 0.0 < a / b < c / d
  {
    var p, q := a / b, c / d;
    assert p * b == a && q * d == c;
    assert (q - p) * (b * d) == c * b - a * d by {
      assert q * (b * d) == (q * d) * b;
      assert p * (b * d) == (p * b) * d;
    }
    PositiveFactor(q - p, b * d);
    PositiveFactor(p, b);
  }

  lemma PositiveFactor(x: real, y: real)
    requires y > 0.0 && x * y > 0.0
    ensures x > 0.0
  {
  }

  lemma PowAdds(x: real, m: nat, n: nat)
    ensures Pow(x, 1) == x && Pow(x, m + n) == Pow(x, m) * Pow(x, n)
    decreases m
  {
    assert Pow(x, 1) == x * 1.0;
    if m == 0 {
      assert Pow(x, m + n) == 1.0 * Pow(x, n);
    } else {
      PowAdds(x, m - 1, n);
      assert x * (Pow(x, m - 1) * Pow(x, n)) == (x * Pow(x, m - 1)) * Pow(x, n);
    }
  }

  lemma PowOfProduct(x: real, y: real, n: nat)
    ensures Pow(x * y, n) == Pow(x, n) * Pow(y, n)
  {
    if n > 0 {
      PowOfProduct(x, y, n - 1);
      var p, q := Pow(x, n - 1), Pow(y, n - 1);
      assert (x * y) * (p * q) == (x * p) * (y * q);
    }
  }

  /** The Hill equation: the odds of the score are the `n`-th power of `affinity / kd`. */
  lemma HillOdds(affinity: real, n: nat, kd: real)
    requires affinity > 0.0 && kd > 0.0
    ensures HillScore(affinity, n, kd) == (1.0 - HillScore(affinity, n, kd)) * Pow(affinity / kd, n)
  {
    PowPositive(affinity, n);
    PowPositive(kd, n);
    var r, a, k := affinity / kd, Pow(affinity, n), Pow(kd, n);
    assert r * kd == affinity;
    PowOfProduct(r, kd, n);
    OddsOfShare(a, k, Pow(r, n));
  }

  lemma OddsOfShare(a: real, k: real, q: real)
    requires a > 0.0 && k > 0.0 && a == q * k
    ensures a / (k + a) == (1.0 - a / (k + a)) * q
  {
    var s := a / (k + a);
    assert s * (k + a) == a;
    assert s * k + s * a == a;
    assert (1.0 - s) * a == s * k;
    assert (1.0 - s) * (q * k) == ((1.0 - s) * q) * k;
    SameFactor(s, (1.0 - s) * q, k);
  }

  lemma SameFactor(x: real, y: real, k: real)
    requires k > 0.0 && x * k == y * k
    ensures x == y
  {
    assert (x - y) * k == 0.0;
  }

  /** For `n >= 1` and `kd > 0` scores are in [0, 1), strictly increasing, and 1/2 at `kd`. */
  lemma HillIsStrictlyIncreasing(a: real, b: real, n: nat, kd: real)
    requires n >= 1 && kd > 0.0 && 0.0 <= a < b
    ensures 0.0 <= HillScore(a, n, kd) < HillScore(b, n, kd) < 1.0
    ensures HillScore(kd, n, kd) == 0.5
  {
    PowPositive(b, n);
    PowPositive(kd, n);
    SaturationInUnit(Pow(kd, n), Pow(b, n));
    HalfSaturation(Pow(kd, n));
    if a > 0.0 {
      PowPositive(a, n);
      PowMonotone(a, b, n);
      SaturationMonotone(Pow(kd, n), Pow(a, n), Pow(b, n));
    }
  }

  /** Exactly these parameters let the score tell any two affinities apart, in order. */
  lemma HillPreservesOrderIff(n: nat, kd: real)
    ensures (forall a: real, b: real :: 0.0 <= a < b ==> HillScore(a, n, kd) < HillScore(b, n, kd))
      <==> n >= 1 && kd > 0.0
  {
    if n >= 1 && kd > 0.0 {
      forall a: real, b: real | 0.0 <= a < b ensures HillScore(a, n, kd) < HillScore(b, n, kd) {
        HillIsStrictlyIncreasing(a, b, n, kd);
      }
    } else {
      assert HillScore(1.0, n, kd) == HillScore(2.0, n, kd);
    }
  }

  // ---------------------------------------------------------------------------
  // Scored matching
  // ---------------------------------------------------------------------------

  datatype Weights = Weights(skills: real, tags: real, pattern: real, successRate: real)

  function Ratio(wanted: seq<string>, offered: seq<string>): real {
    if wanted == [] then 1.0 else Hits(wanted, offered) as real / |wanted| as real
  }

  datatype Context = Context(
    m: Message, peerSkills: map<string, seq<string>>, successRates: map<string, real>, re: Regex)

  function ComputeAffinity(rule: Rule, c: Context, w: Weights): real {
    var patternMatch := if rule.pattern != [] && !PatternMatches(rule, c.m, c.re) then 0.0 else 1.0;
    var successRate := if rule.peer in c.successRates then c.successRates[rule.peer] else 1.0;
    WeightedSum(w, Ratio(rule.skills, SkillsOf(c.peerSkills, rule.peer)), Ratio(rule.tags, c.m.tags), patternMatch, successRate)
  }

  function WeightedSum(w: Weights, skills: real, tags: real, pattern: real, successRate: real): real {
    w.skills * skills + w.tags * tags + w.pattern * pattern + w.successRate * successRate
  }

  ghost predicate NonNegative(c: Context, w: Weights) {
    && w.skills >= 0.0 && w.tags >= 0.0 && w.pattern >= 0.0 && w.successRate >= 0.0
    && forall p :: p in c.successRates ==> c.successRates[p] >= 0.0
  }

  lemma AffinityIsNonNegative(rule: Rule, c: Context, w: Weights)
    requires NonNegative(c, w)
    ensures ComputeAffinity(rule, c, w) >= 0.0
  {
    NonNegativeProduct(w.skills, Ratio(rule.skills, SkillsOf(c.peerSkills, rule.peer)));
    NonNegativeProduct(w.tags, Ratio(rule.tags, c.m.tags));
    if rule.peer in c.successRates { NonNegativeProduct(w.successRate, c.successRates[rule.peer]); }
  }

  /** The share of the wanted names that are offered; all of it if none are wanted. */
  ghost function Share(wanted: seq<string>, offered: seq<string>): real {
    if wanted == [] then 1.0 else |HitPlaces(wanted, offered)| as real / |wanted| as real
  }

  ghost function HitPlaces(wanted: seq<string>, offered: seq<string>): set<nat> {
    set i: nat | i < |wanted| && wanted[i] in offered
  }

  lemma {:induction false} HitsCount(wanted: seq<string>, offered: seq<string>)
    ensures Hits(wanted, offered) == |HitPlaces(wanted, offered)|
    decreases |wanted|
  {
    if wanted == [] {
      assert HitPlaces(wanted, offered) == {};
    } else {
      var n := |wanted| - 1;
      HitsCount(wanted[..n], offered);
      HitsSnoc(wanted[..n], wanted[n], offered);
      assert wanted == wanted[..n] + [wanted[n]];
      var earlier := HitPlaces(wanted[..n], offered);
      assert HitPlaces(wanted, offered) == if wanted[n] in offered then earlier + {n} else earlier;
      assert n !in earlier;
    }
  }

  lemma {:induction false} HitsSnoc(wanted: seq<string>, w: string, offered: seq<string>)
    ensures Hits(wanted + [w], offered) == Hits(wanted, offered) + if w in offered then 1 else 0
    decreases |wanted|
  {
    if wanted == [] {
      assert [] + [w] == [w] && [w][1..] == [];
    } else {
      assert (wanted + [w])[0] == wanted[0] && (wanted + [w])[1..] == wanted[1..] + [w];
      HitsSnoc(wanted[1..], w, offered);
    }
  }

  /** The affinity of a rule that states no criteria. */
  function FullAffinity(w: Weights, rate: real): real { w.skills + w.tags + w.pattern + w.successRate * rate }

  /** What is lost with these shares of the skills and the tags, and with the pattern if it misses. */
  function Loss(w: Weights, skills: real, tags: real, misses: bool): real {
    w.skills * (1.0 - skills) + w.tags * (1.0 - tags) + if misses then w.pattern else 0.0
  }

  /** A rule without criteria has full affinity, and each criterion costs its own weight times the
      share that is missing: of the skills that the peer offers, of the tags of the message, the
      whole of it for a pattern that does not match. */
  lemma AffinityLosesWhatIsMissing(rule: Rule, c: Context, w: Weights)
    ensures var rate := if rule.peer in c.successRates then c.successRates[rule.peer] else 1.0;
      var offered := if rule.peer in c.peerSkills then c.peerSkills[rule.peer] else [];
      var misses := rule.pattern != "" && !PatternMatches(rule, c.m, c.re);
      ComputeAffinity(rule, c, w)
        == FullAffinity(w, rate) - Loss(w, Share(rule.skills, offered), Share(rule.tags, c.m.tags), misses)
  {
    var rate := if rule.peer in c.successRates then c.successRates[rule.peer] else 1.0;
    var offered := if rule.peer in c.peerSkills then c.peerSkills[rule.peer] else [];
    var misses := rule.pattern != "" && !PatternMatches(rule, c.m, c.re);
    RatioIsShare(rule.skills, offered);
    RatioIsShare(rule.tags, c.m.tags);
    SumOfLosses(w, Ratio(rule.skills, offered), Ratio(rule.tags, c.m.tags), misses, rate);
  }

  lemma RatioIsShare(wanted: seq<string>, offered: seq<string>)
    ensures Ratio(wanted, offered) == Share(wanted, offered)
  {
    HitsCount(wanted, offered);
  }

  lemma SumOfLosses(w: Weights, a: real, b: real, misses: bool, rate: real)
    ensures WeightedSum(w, a, b, if misses then 0.0 else 1.0, rate) == FullAffinity(w, rate) - Loss(w, a, b, misses)
  {
    Distribute(w.skills, a);
    Distribute(w.tags, b);
  }

  lemma Distribute(w: real, x: real)
    ensures w - w * x == w * (1.0 - x)
  {
  }

  datatype ScoredMatch = ScoredMatch(peer: string, agentId: Option<string>, score: real)

  datatype Scoring = Legacy | Hill(n: nat, kd: real, weights: Weights)

  function ScoreOf(scoring: Scoring, c: Context): Rule -> ScoredMatch {
    (rule: Rule) =>
      ScoredMatch(rule.peer, rule.agentId,
        match scoring
        case Legacy => 1.0
        case Hill(n, kd, w) => HillScore(ComputeAffinity(rule, c, w), n, kd))
  }

  function ByScore(): (ScoredMatch, ScoredMatch) -> bool { (a: ScoredMatch, b: ScoredMatch) => a.score > b.score }

  function ByAffinity(c: Context, w: Weights): (Rule, Rule) -> bool {
    (a: Rule, b: Rule) => ComputeAffinity(a, c, w) > ComputeAffinity(b, c, w)
  }

  function Matching(rules: seq<Rule>, c: Context): seq<Rule> {
    if rules == [] then []
    else (if MatchesRule(rules[0], c.m, c.peerSkills, c.re) then [rules[0]] else []) + Matching(rules[1..], c)
  }

  /** Hill scoring does not change the ranking: the scores of the matching rules in descending
      order are those of the rules in descending order of raw affinity, ties in both kept in
      the order of the rules. */
  lemma HillRanksByAffinity(rules: seq<Rule>, c: Context, n: nat, kd: real, w: Weights)
    requires n >= 1 && kd > 0.0 && NonNegative(c, w)
    ensures Sort(MapSeq(ScoreOf(Hill(n, kd, w), c), Matching(rules, c)), ByScore())
      == MapSeq(ScoreOf(Hill(n, kd, w), c), Sort(Matching(rules, c), ByAffinity(c, w)))
  {
    var f := ScoreOf(Hill(n, kd, w), c);
    var ms := Matching(rules, c);
    SortMap(ms, f, ByScore());
    forall a, b | a in ms && b in ms ensures Through(ByScore(), f)(a, b) == ByAffinity(c, w)(a, b) {
      var x, y := ComputeAffinity(a, c, w), ComputeAffinity(b, c, w);
      AffinityIsNonNegative(a, c, w);
      AffinityIsNonNegative(b, c, w);
      if x > y { HillIsStrictlyIncreasing(y, x, n, kd); }
      if y > x { HillIsStrictlyIncreasing(x, y, n, kd); }
    }
    SortCongruence(ms, ByAffinity(c, w), Through(ByScore(), f));
  }

  /** One more rule in front of the rest. */
  function Prefixed(rule: Rule, c: Context, f: Rule -> ScoredMatch, rest: seq<ScoredMatch>): seq<ScoredMatch> {
    if MatchesRule(rule, c.m, c.peerSkills, c.re) then [f(rule)] + rest else rest
  }

  lemma MatchingStep(rules: seq<Rule>, i: nat, c: Context, f: Rule -> ScoredMatch)
    requires i < |rules|
    ensures MapSeq(f, Matching(rules[i..], c)) == Prefixed(rules[i], c, f, MapSeq(f, Matching(rules[i + 1..], c)))
  {
    var rest := Matching(rules[i + 1..], c);
    assert rules[i..][1..] == rules[i + 1..];
    assert ([rules[i]] + rest)[1..] == rest && [] + rest == rest;
  }

  /** `matchAllRules`: with legacy scoring the matching rules in their order, with Hill scoring
      sorted by score. */
  method MatchAllRules(rules: seq<Rule>, c: Context, scoring: Scoring) returns (scored: seq<ScoredMatch>)
    ensures var all := MapSeq(ScoreOf(scoring, c), Matching(rules, c));
      scored == if scoring.Legacy? then all else Sort(all, ByScore())
    ensures scoring.Legacy? ==> |scored| == |Matching(rules, c)| && forall i :: 0 <= i < |scored| ==>
      scored[i] == ScoredMatch(Matching(rules, c)[i].peer, Matching(rules, c)[i].agentId, 1.0)
    ensures scoring.Hill? && scoring.n >= 1 && scoring.kd > 0.0 && NonNegative(c, scoring.weights) ==>
      scored == MapSeq(ScoreOf(scoring, c), Sort(Matching(rules, c), ByAffinity(c, scoring.weights)))
  {
    scored := CollectMatches(rules, c, ScoreOf(scoring, c));
    MapSeqAt(ScoreOf(scoring, c), Matching(rules, c));
    if scoring.Hill? {
      if scoring.n >= 1 && scoring.kd > 0.0 {
        ghost var n, kd, w := scoring.n, scoring.kd, scoring.weights;
        if NonNegative(c, w) { HillRanksByAffinity(rules, c, n, kd, w); }
      }
      scored := Sort(scored, ByScore());
    }
  }

  /** The loop of `matchAllRules`. */
  method CollectMatches(rules: seq<Rule>, c: Context, f: Rule -> ScoredMatch) returns (scored: seq<ScoredMatch>)
    ensures scored == MapSeq(f, Matching(rules, c))
  {
    ghost var all := MapSeq(f, Matching(rules, c));
    scored := [];
    ghost var rest := all;
    assert rules[0..] == rules;
    for i := 0 to |rules|
      invariant rest == MapSeq(f, Matching(rules[i..], c)) && scored + rest == all
    {
      var rule := rules[i];
      MatchingStep(rules, i, c, f);
      rest := MapSeq(f, Matching(rules[i + 1..], c));
      if MatchesRule(rule, c.m, c.peerSkills, c.re) {
        AppendOne(scored, f(rule), rest);
        scored := scored + [f(rule)];
      }
    }
    assert rules[|rules|..] == [] && scored + [] == scored;
  }

  predicate Matches(rule: Rule, c: Context) { MatchesRule(rule, c.m, c.peerSkills, c.re) }

  lemma MatchingHead(rules: seq<Rule>, c: Context)
    ensures Matching(rules, c) == [] <==> FirstMatch(rules, r => Matches(r, c)).None?
    ensures Matching(rules, c) != [] ==> FirstMatch(rules, r => Matches(r, c)) == Some(Matching(rules, c)[0])
  {
  }

  /** `matchRule` on parsed rules: the target of the matching rule with the highest priority,
      the first of those in the configuration, and nothing only if no rule matches. */
  method MatchRule(configured: seq<Rule>, c: Context) returns (target: Option<(string, Option<string>)>)
    ensures target.None? <==> forall j :: 0 <= j < |configured| ==> !Matches(configured[j], c)
    ensures target.Some? ==> exists i: nat ::
      IsBest(configured, r => Matches(r, c), i) && target.value == (configured[i].peer, configured[i].agentId)
  {
    var rules := InPriorityOrder(configured);
    var results := MatchAllRules(rules, c, Legacy);
    FirstMatchIsBest(configured, r => Matches(r, c));
    MatchingHead(rules, c);
    if |results| == 0 { return None; }
    target := Some((results[0].peer, results[0].agentId));
  }
}
