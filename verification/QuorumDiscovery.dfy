/** The density-driven polling mode with hysteresis (src/quorum-discovery.ts).

    Thresholds may be fractional, densities are counts.  A tick whose refresh fails has no sample. */
module QuorumDiscovery {
  import opened Common

  datatype Mode = Explore | Stable

  datatype Config = Config(activateThreshold: real, deactivateThreshold: real)

  /** What the constructor insists on. */
  predicate Accepted(cfg: Config) {
    cfg.deactivateThreshold < cfg.activateThreshold && cfg.activateThreshold >= 1.0 && cfg.deactivateThreshold >= 0.0
  }

  datatype ConfigError = NoHysteresis | ActivateTooLow | DeactivateNegative

  /** The checks of the constructor, in order. */
  function Validate(cfg: Config): (error: Option<ConfigError>)
    ensures error.None? <==> Accepted(cfg)
    ensures error == Some(NoHysteresis) <==> cfg.activateThreshold <= cfg.deactivateThreshold
  {
    if cfg.deactivateThreshold >= cfg.activateThreshold then Some(NoHysteresis)
    else if cfg.activateThreshold < 1.0 then Some(ActivateTooLow)
    else if cfg.deactivateThreshold < 0.0 then Some(DeactivateNegative)
    else None
  }

  function NextMode(cfg: Config, mode: Mode, density: nat): Mode {
    if mode == Explore && density as real >= cfg.activateThreshold then Stable
    else if mode == Stable && (density as real) < cfg.deactivateThreshold then Explore
    else mode
  }

  function Run(cfg: Config, mode: Mode, densities: seq<nat>): Mode
    decreases |densities|
  {
    if densities == [] then mode else Run(cfg, NextMode(cfg, mode, densities[0]), densities[1..])
  }

  function Changes(cfg: Config, mode: Mode, densities: seq<nat>): nat
    decreases |densities|
  {
    if densities == [] then 0
    else
      var next := NextMode(cfg, mode, densities[0]);
      (if next == mode then 0 else 1) + Changes(cfg, next, densities[1..])
  }

  /** The smallest whole number that is not below `x`. */
  function Ceil(x: real): int { -((-x).Floor) }

  lemma CeilIsLeast(x: real, d: int)
    ensures d as real >= x <==> d >= Ceil(x)
  {
  }

  // ---------------------------------------------------------------------------
  // Which mode a trace ends in
  // ---------------------------------------------------------------------------

  ghost predicate StaysUp(cfg: Config, densities: seq<nat>) {
    forall d :: d in densities ==> d as real >= cfg.deactivateThreshold
  }

  /** Sample `i` reached the upper threshold and no later one fell below the lower. */
  ghost predicate Locks(cfg: Config, densities: seq<nat>, i: nat) {
    i < |densities| && densities[i] as real >= cfg.activateThreshold && StaysUp(cfg, densities[i..])
  }

  ghost predicate Locked(cfg: Config, densities: seq<nat>) { exists i :: Locks(cfg, densities, i) }

  lemma LockedUnfolds(cfg: Config, densities: seq<nat>)
    requires densities != []
    ensures Locked(cfg, densities) <==>
      Locked(cfg, densities[1..]) || (densities[0] as real >= cfg.activateThreshold && StaysUp(cfg, densities))
  {
    var rest := densities[1..];
    forall i: nat | i < |rest| ensures Locks(cfg, densities, i + 1) <==> Locks(cfg, rest, i) {
      assert densities[i + 1..] == rest[i..];
    }
    assert densities[0..] == densities;
    if i: nat :| Locks(cfg, densities, i) {
      assert i > 0 ==> Locks(cfg, rest, i - 1);
    }
    if i: nat :| Locks(cfg, rest, i) { assert Locks(cfg, densities, i + 1); }
    if densities[0] as real >= cfg.activateThreshold && StaysUp(cfg, densities) { assert Locks(cfg, densities, 0); }
  }

  lemma StaysUpUnfolds(cfg: Config, densities: seq<nat>)
    requires densities != []
    ensures StaysUp(cfg, densities) <==>
      densities[0] as real >= cfg.deactivateThreshold && StaysUp(cfg, densities[1..])
  {
    assert densities == [densities[0]] + densities[1..];
    if StaysUp(cfg, densities) {
      assert densities[0] in densities;
      forall e | e in densities[1..] ensures e as real >= cfg.deactivateThreshold { assert e in densities; }
    }
  }

  lemma {:induction false} EndsStable(cfg: Config, mode: Mode, densities: seq<nat>)
    requires Accepted(cfg)
    ensures Run(cfg, mode, densities) == Stable
      <==> Locked(cfg, densities) || (mode == Stable && StaysUp(cfg, densities))
    decreases |densities|
  {
    if densities != [] {
      var d, rest := densities[0], densities[1..];
      EndsStable(cfg, NextMode(cfg, mode, d), rest);
      LockedUnfolds(cfg, densities);
      StaysUpUnfolds(cfg, densities);
    } else {
      assert !Locked(cfg, densities) && StaysUp(cfg, densities);
    }
  }

  /** Starting out exploring, the mode is stable after a trace of samples if and only if some
      sample reached the upper threshold and every later one stayed at or above the lower. */
  lemma StableIffLocked(cfg: Config, densities: seq<nat>)
    requires Accepted(cfg)
    ensures Run(cfg, Explore, densities) == Stable <==> exists i :: Locks(cfg, densities, i)
  {
    EndsStable(cfg, Explore, densities);
  }

  // ---------------------------------------------------------------------------
  // How much movement a mode change costs
  // ---------------------------------------------------------------------------

  function Distance(a: int, b: int): nat { if a < b then b - a else a - b }

  /** Total movement along a trace that starts at `from`. */
  function Variation(from: nat, densities: seq<nat>): nat
    decreases |densities|
  {
    if densities == [] then 0 else Distance(from, densities[0]) + Variation(densities[0], densities[1..])
  }

  /** The dead zone, in whole peers. */
  function Gap(cfg: Config): int { Ceil(cfg.activateThreshold) - Ceil(cfg.deactivateThreshold) + 1 }

  /** How far the density is from the next change of mode. */
  function ToSwitch(cfg: Config, mode: Mode, density: nat): int {
    match mode
    case Explore => Ceil(cfg.activateThreshold) - density
    case Stable => density - (Ceil(cfg.deactivateThreshold) - 1)
  }

  lemma {:induction false} ChangesCostMovement(cfg: Config, mode: Mode, from: nat, densities: seq<nat>)
    requires Accepted(cfg) && Changes(cfg, mode, densities) >= 1
    ensures Variation(from, densities) >= ToSwitch(cfg, mode, from) + (Changes(cfg, mode, densities) - 1) * Gap(cfg)
    decreases |densities|
  {
    var e, rest := densities[0], densities[1..];
    var next := NextMode(cfg, mode, e);
    var c := Changes(cfg, mode, densities);
    CeilIsLeast(cfg.activateThreshold, e);
    CeilIsLeast(cfg.deactivateThreshold, e);
    if Changes(cfg, next, rest) >= 1 {
      ChangesCostMovement(cfg, next, e, rest);
      assert (c - 1) * Gap(cfg) == (c - 2) * Gap(cfg) + Gap(cfg);
    }
  }

  /** Oscillation is bounded: `k` mode changes need a total movement of `k - 1` dead zones. */
  lemma OscillationIsBounded(cfg: Config, densities: seq<nat>)
    requires Accepted(cfg) && densities != [] && Changes(cfg, Explore, densities) >= 1
    ensures Variation(densities[0], densities[1..]) >= (Changes(cfg, Explore, densities) - 1) * Gap(cfg)
  {
    var d, rest := densities[0], densities[1..];
    var next := NextMode(cfg, Explore, d);
    var k := Changes(cfg, Explore, densities);
    CeilIsLeast(cfg.activateThreshold, d);
    if Changes(cfg, next, rest) >= 1 {
      ChangesCostMovement(cfg, next, d, rest);
      assert (k - 1) * Gap(cfg) == (k - 2) * Gap(cfg) + Gap(cfg);
    }
  }

  function Constant(d: nat, n: nat): seq<nat> { seq(n, _ => d) }

  lemma {:induction false} ConstantChangesOnce(cfg: Config, mode: Mode, d: nat, n: nat)
    requires Ceil(cfg.deactivateThreshold) <= Ceil(cfg.activateThreshold)
    ensures Changes(cfg, mode, Constant(d, n)) <= 1
    ensures NextMode(cfg, mode, d) == mode ==> Changes(cfg, mode, Constant(d, n)) == 0
    decreases n
  {
    CeilIsLeast(cfg.activateThreshold, d);
    CeilIsLeast(cfg.deactivateThreshold, d);
    if n > 0 {
      assert Constant(d, n)[0] == d && Constant(d, n)[1..] == Constant(d, n - 1);
      ConstantChangesOnce(cfg, NextMode(cfg, mode, d), d, n - 1);
    }
  }

  /** Why the thresholds must be ordered: the mode settles at every constant density if and only
      if the lower threshold, in whole peers, is not above the upper. */
  lemma SettlesIffThresholdsOrdered(cfg: Config)
    requires Ceil(cfg.activateThreshold) >= 0
    ensures (forall d: nat, n: nat :: Changes(cfg, Explore, Constant(d, n)) <= 1)
      <==> Ceil(cfg.deactivateThreshold) <= Ceil(cfg.activateThreshold)
  {
    if Ceil(cfg.deactivateThreshold) <= Ceil(cfg.activateThreshold) {
      forall d: nat, n: nat ensures Changes(cfg, Explore, Constant(d, n)) <= 1 {
        ConstantChangesOnce(cfg, Explore, d, n);
      }
    } else {
      var d: nat := Ceil(cfg.activateThreshold);
      CeilIsLeast(cfg.activateThreshold, d);
      CeilIsLeast(cfg.deactivateThreshold, d);
      var c := Constant(d, 2);
      assert c[0] == d && c[1..] == [d] && [d][1..] == [];
      assert NextMode(cfg, Explore, d) == Stable && NextMode(cfg, Stable, d) == Explore;
      assert Changes(cfg, Stable, [d]) == 1;
      assert Changes(cfg, Explore, c) == 2;
    }
  }

  // ---------------------------------------------------------------------------
  // The class
  // ---------------------------------------------------------------------------

  class QuorumDiscoveryManager {
    const config: Config
    const stableIntervalMs: nat
    const exploreIntervalMs: nat
    var mode: Mode
    var running: bool
    /** The delay of the timer that is armed, if any. */
    var timer: Option<nat>
    ghost var samples: seq<nat>

    ghost predicate Valid() reads this {
      Accepted(config) && mode == Run(config, Explore, samples)
    }

    constructor (config: Config, stableIntervalMs: nat, exploreIntervalMs: nat)
      requires Accepted(config)
      ensures Valid() && samples == [] && !running && this.config == config
    {
      this.config, this.stableIntervalMs, this.exploreIntervalMs := config, stableIntervalMs, exploreIntervalMs;
      mode, running, timer, samples := Explore, false, None, [];
    }

    method Start()
      requires Valid()
      modifies this
      ensures Valid() && running && samples == old(samples)
      ensures timer == if old(running) then old(timer) else Some(0)
    {
      if running { return; }
      running := true;
      timer := Some(0);
    }

    method Stop()
      requires Valid()
      modifies this
      ensures Valid() && !running && timer == None && samples == old(samples) && mode == old(mode)
    {
      timer := None;
      running := false;
    }

    /** The rest of `tick` once the refresh has come back, with the density or without.  The mode
        after all samples is always the one that the whole trace determines, and the next
        delay follows the new mode. */
    method RefreshSettled(density: Option<nat>)
      requires Valid()
      modifies this`mode, this`timer, this`samples
      ensures Valid()
      ensures samples == if density.Some? then old(samples) + [density.value] else old(samples)
      ensures density.None? ==> mode == old(mode)
      ensures mode == Stable <==> exists i :: Locks(config, samples, i)
      ensures timer == if running then Some(if mode == Stable then stableIntervalMs else exploreIntervalMs) else old(timer)
    {
      if density.Some? {
        var d := density.value;
        RunAppend(config, Explore, samples, d);
        samples := samples + [d];
        if mode == Explore && d as real >= config.activateThreshold {
          mode := Stable;
        } else if mode == Stable && (d as real) < config.deactivateThreshold {
          mode := Explore;
        }
      }
      if running {
        timer := Some(if mode == Stable then stableIntervalMs else exploreIntervalMs);
      }
      StableIffLocked(config, samples);
    }
  }

  /** `new QuorumDiscoveryManager(...)`, with the exception as a result. */
  method NewManager(config: Config, stableIntervalMs: nat, exploreIntervalMs: nat)
    returns (error: Option<ConfigError>, manager: QuorumDiscoveryManager?)
    ensures error.None? <==> Accepted(config)
    ensures error.None? <==> manager != null
    ensures manager != null ==>
      fresh(manager) && manager.Valid() && manager.samples == [] && !manager.running && manager.config == config
  {
    error, manager := Validate(config), null;
    if error.None? {
      manager := new QuorumDiscoveryManager(config, stableIntervalMs, exploreIntervalMs);
    }
  }

  lemma {:induction false} RunAppend(cfg: Config, mode: Mode, densities: seq<nat>, d: nat)
    ensures Run(cfg, mode, densities + [d]) == NextMode(cfg, Run(cfg, mode, densities), d)
    decreases |densities|
  {
    if densities == [] {
      assert [] + [d] == [d] && [d][1..] == [];
    } else {
      assert (densities + [d])[1..] == densities[1..] + [d];
      RunAppend(cfg, NextMode(cfg, mode, densities[0]), densities[1..], d);
    }
  }
}
