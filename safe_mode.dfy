/** The adaptive safe-mode controller: a two-state machine (normal or safe mode) over one state
    cell. It enters safe mode when cpu exceeds the critical threshold or the system health is
    critical, marks itself recoverable once the cooldown has passed since entry, and leaves
    only when it is recoverable, cpu is below the recovery threshold and health is healthy.
    An operator may force either state. */
module SafeMode {
  import opened Wrappers
  import opened SystemStatus

  /** Why safe mode is on; `NoReason` is the source's 'none'. */
  datatype Reason = NoReason | Cpu | Memory | Ghost | Manual

  /** Thresholds are cpu percentages; the cooldown is in milliseconds. */
  datatype Config = Config(criticalThreshold: real, recoveryThreshold: real, cooldownDuration: int)

  const DefaultConfig := Config(90.0, 60.0, 5000)

  /** The caller's partial configuration: a missing field takes its default. */
  datatype ConfigOverrides = ConfigOverrides(criticalThreshold: Option<real>, recoveryThreshold: Option<real>,
                                             cooldownDuration: Option<int>)

  const NoOverrides := ConfigOverrides(None, None, None)

  /** `{ ...DEFAULT_CONFIG, ...config }` */
  function MergeConfig(o: ConfigOverrides): Config {
    Config(o.criticalThreshold.GetOr(DefaultConfig.criticalThreshold),
           o.recoveryThreshold.GetOr(DefaultConfig.recoveryThreshold),
           o.cooldownDuration.GetOr(DefaultConfig.cooldownDuration))
  }

  /** Missing fields take the defaults 90, 60 and 5000; supplied fields win. */
  lemma MergeConfigFields(o: ConfigOverrides)
    ensures MergeConfig(o).criticalThreshold == if o.criticalThreshold.Some? then o.criticalThreshold.value else 90.0
    ensures MergeConfig(o).recoveryThreshold == if o.recoveryThreshold.Some? then o.recoveryThreshold.value else 60.0
    ensures MergeConfig(o).cooldownDuration == if o.cooldownDuration.Some? then o.cooldownDuration.value else 5000
    ensures MergeConfig(NoOverrides) == DefaultConfig
  {
  }

  /** The state cell; `activatedAt` is the entry time in milliseconds, `None` for `null`. */
  datatype State = State(isSafeMode: bool, reason: Reason, activatedAt: Option<int>, canRecover: bool)

  /** The initial state, and the state every exit returns to. */
  const AllClear := State(false, NoReason, None, false)

  /** The state every entry writes. */
  function Activated(reason: Reason, now: int): State {
    State(true, reason, Some(now), false)
  }

  /** What every reachable state satisfies: off means all-clear, on means an entry time is known. */
  predicate Consistent(s: State) {
    (!s.isSafeMode ==> s == AllClear) && (s.isSafeMode ==> s.activatedAt.Some?)
  }

  /** What one pass of the monitoring effect sees: the current cpu, the classified health and the clock. */
  datatype Reading = Reading(cpu: real, health: Health, now: int)

  predicate CooldownElapsed(c: Config, s: State, now: int) {
    s.activatedAt.Some? && now - s.activatedAt.value > c.cooldownDuration
  }

  predicate ExitAllowed(c: Config, s: State, r: Reading) {
    s.canRecover && r.cpu < c.recoveryThreshold && r.health == Healthy
  }

  /** The state after one pass, by which write wins. Every condition of the pass reads the state
      as it was before the pass: off, the later ghost alarm overrides the cpu alarm; on, an exit
      overrides the recovery mark, and an exit needs the mark from an earlier pass. */
  function Pass(c: Config, s: State, r: Reading): State {
    if !s.isSafeMode then
      if r.health == Critical then Activated(Ghost, r.now)
      else if r.cpu > c.criticalThreshold then Activated(Cpu, r.now)
      else s
    else if ExitAllowed(c, s, r) then AllClear
    else if CooldownElapsed(c, s, r.now) then s.(canRecover := true)
    else s
  }

  lemma PassKeepsConsistent(c: Config, s: State, r: Reading)
    requires Consistent(s)
    ensures Consistent(Pass(c, s, r))
  {
  }

  /** From all-clear, safe mode is entered exactly when cpu is strictly above the critical
      threshold or health is critical; entry stamps the time and is not yet recoverable, and
      when both checks fire the reason is 'ghost'. */
  lemma ActivationFromAllClear(c: Config, r: Reading)
    ensures Pass(c, AllClear, r).isSafeMode <==> r.cpu > c.criticalThreshold || r.health == Critical
    ensures r.health == Critical ==> Pass(c, AllClear, r) == Activated(Ghost, r.now)
    ensures r.health != Critical && r.cpu > c.criticalThreshold ==> Pass(c, AllClear, r) == Activated(Cpu, r.now)
    ensures r.cpu == c.criticalThreshold && r.health != Critical ==> Pass(c, AllClear, r) == AllClear
  {
  }

  /** With the default thresholds and health classified from the same metrics, every automatic
      entry is a 'ghost' entry: cpu above 90 already makes the health critical. */
  lemma DefaultActivationIsGhost(m: Metrics, now: int)
    ensures var s := Pass(DefaultConfig, AllClear, Reading(m.cpu, Classify(m), now));
      s.isSafeMode ==> s.reason == Ghost
  {
  }

  /** The recovery mark: it only turns on in safe mode once strictly more than the cooldown has
      passed since entry, it stays on for as long as safe mode does, and setting it again
      changes nothing. */
  lemma RecoveryMark(c: Config, s: State, r: Reading)
    requires Consistent(s)
    ensures Pass(c, s, r).canRecover && !s.canRecover ==>
      s.isSafeMode && r.now - s.activatedAt.value > c.cooldownDuration
    ensures s.canRecover && Pass(c, s, r).isSafeMode ==> Pass(c, s, r) == s
  {
  }

  /** In safe mode, one pass leaves it exactly when the state was already recoverable, cpu is
      strictly below the recovery threshold and health is healthy; leaving yields all-clear. */
  lemma ExitExactly(c: Config, s: State, r: Reading)
    requires Consistent(s) && s.isSafeMode
    ensures !Pass(c, s, r).isSafeMode <==> s.canRecover && r.cpu < c.recoveryThreshold && r.health == Healthy
    ensures !Pass(c, s, r).isSafeMode ==> Pass(c, s, r) == AllClear
  {
  }

  /** The state after a series of passes, one per reading, oldest reading first. */
  function Run(c: Config, s: State, rs: seq<Reading>): State
    decreases |rs|
  {
    if rs == [] then s else Pass(c, Run(c, s, rs[..|rs| - 1]), rs[|rs| - 1])
  }

  /** Cooldown: no pass whose clock is within the cooldown of the entry changes the entered
      state at all, so in particular none leaves safe mode, whatever cpu and health say. */
  lemma {:induction false} NoExitDuringCooldown(c: Config, reason: Reason, t0: int, rs: seq<Reading>)
    requires forall i :: 0 <= i < |rs| ==> rs[i].now - t0 <= c.cooldownDuration
    ensures Run(c, Activated(reason, t0), rs) == Activated(reason, t0)
    decreases |rs|
  {
    if rs != [] {
      NoExitDuringCooldown(c, reason, t0, rs[..|rs| - 1]);
    }
  }

  /** Hysteresis: once in safe mode, no series of readings with cpu at or above the recovery
      threshold leaves it, even when health is healthy. */
  lemma {:induction false} NoExitAboveRecovery(c: Config, s: State, rs: seq<Reading>)
    requires Consistent(s) && s.isSafeMode
    requires forall i :: 0 <= i < |rs| ==> rs[i].cpu >= c.recoveryThreshold
    ensures Run(c, s, rs).isSafeMode && Consistent(Run(c, s, rs))
    decreases |rs|
  {
    if rs != [] {
      NoExitAboveRecovery(c, s, rs[..|rs| - 1]);
    }
  }

  /** While a run that entered at t0 stays in safe mode, its state is the entered state, or the
      entered state marked recoverable by some pass whose clock was past the cooldown. */
  lemma {:induction false} SafeRunShape(c: Config, reason: Reason, t0: int, rs: seq<Reading>)
    requires forall k :: 0 <= k <= |rs| ==> Run(c, Activated(reason, t0), rs[..k]).isSafeMode
    ensures var s := Run(c, Activated(reason, t0), rs);
      || s == Activated(reason, t0)
      || (s == Activated(reason, t0).(canRecover := true)
          && exists i :: 0 <= i < |rs| && rs[i].now - t0 > c.cooldownDuration)
    decreases |rs|
  {
    if rs != [] {
      var front := rs[..|rs| - 1];
      forall k | 0 <= k <= |front|
        ensures Run(c, Activated(reason, t0), front[..k]).isSafeMode
      {
        assert front[..k] == rs[..k];
      }
      SafeRunShape(c, reason, t0, front);
      assert rs[..|rs|] == rs;
      var before := Run(c, Activated(reason, t0), front);
      if before != Activated(reason, t0) {
        var i :| 0 <= i < |front| && front[i].now - t0 > c.cooldownDuration;
        assert rs[i] == front[i];
      }
    }
  }

  /** Cooldown floor for the first exit: a run that entered at t0 can leave safe mode only after
      an earlier pass, not the exiting one, has seen more than the cooldown elapse. */
  lemma FirstExitNeedsEarlierCooldown(c: Config, reason: Reason, t0: int, rs: seq<Reading>)
    requires rs != []
    requires forall k :: 0 <= k < |rs| ==> Run(c, Activated(reason, t0), rs[..k]).isSafeMode
    requires !Run(c, Activated(reason, t0), rs).isSafeMode
    ensures exists i :: 0 <= i < |rs| - 1 && rs[i].now - t0 > c.cooldownDuration
  {
    var front := rs[..|rs| - 1];
    forall k | 0 <= k <= |front|
      ensures Run(c, Activated(reason, t0), front[..k]).isSafeMode
    {
      assert front[..k] == rs[..k];
    }
    SafeRunShape(c, reason, t0, front);
    var i :| 0 <= i < |front| && front[i].now - t0 > c.cooldownDuration;
    assert rs[i] == front[i];
  }

  /** No automatic pass ever produces the reason 'memory'. */
  lemma {:induction false} NeverMemory(c: Config, s: State, rs: seq<Reading>)
    requires s.reason != Memory
    ensures Run(c, s, rs).reason != Memory
    decreases |rs|
  {
    if rs != [] {
      NeverMemory(c, s, rs[..|rs| - 1]);
    }
  }

  /** `n` passes over the same reading, as React re-runs the effect after each state change
      within one snapshot. */
  function Iterate(c: Config, s: State, r: Reading, n: nat): State {
    if n == 0 then s else Pass(c, Iterate(c, s, r, n - 1), r)
  }

  /** The configurations under which re-running the effect settles: a non-negative cooldown, or
      a recovery threshold not above the critical one. */
  predicate Settles(c: Config) {
    c.cooldownDuration >= 0 || c.recoveryThreshold <= c.criticalThreshold
  }

  /** A snapshot evaluation settles after at most three changing passes: the state after three
      passes is a fixed point of the pass. */
  lemma SettlesWithinThree(c: Config, s: State, r: Reading)
    requires Consistent(s) && Settles(c)
    ensures Pass(c, Iterate(c, s, r, 3), r) == Iterate(c, s, r, 3)
  {
    var s1 := Pass(c, s, r);
    var s2 := Pass(c, s1, r);
    var s3 := Pass(c, s2, r);
    assert Iterate(c, s, r, 1) == s1;
    assert Iterate(c, s, r, 2) == s2;
    assert Iterate(c, s, r, 3) == s3;
  }

  /** Without that condition the evaluation may never settle: with critical 50, recovery 60 and
      a negative cooldown, cpu 55 and healthy cycle through entry, recovery mark and exit forever. */
  lemma {:induction false} DegenerateConfigCycles(now: int, n: nat)
    ensures var c := Config(50.0, 60.0, -1);
      var r := Reading(55.0, Healthy, now);
      Pass(c, Iterate(c, AllClear, r, n), r) != Iterate(c, AllClear, r, n)
      && Iterate(c, AllClear, r, n) in {AllClear, Activated(Cpu, now), Activated(Cpu, now).(canRecover := true)}
  {
    if n > 0 {
      DegenerateConfigCycles(now, n - 1);
    }
  }

  /** The evaluation of one snapshot: passes until the state stops changing, at most `fuel` more. */
  function SettleFrom(c: Config, s: State, r: Reading, fuel: nat): State
    decreases fuel
  {
    if fuel == 0 || Pass(c, s, r) == s then s else SettleFrom(c, Pass(c, s, r), r, fuel - 1)
  }

  function Settle(c: Config, s: State, r: Reading): State {
    SettleFrom(c, s, r, 3)
  }

  /** Settling stops at the first fixed point, or after `fuel` passes. */
  lemma {:induction false} SettleFromIterates(c: Config, s: State, r: Reading, fuel: nat)
    ensures exists k ::
      && 0 <= k <= fuel && SettleFrom(c, s, r, fuel) == Iterate(c, s, r, k)
      && (k == fuel || Pass(c, Iterate(c, s, r, k), r) == Iterate(c, s, r, k))
    decreases fuel
  {
    if fuel > 0 && Pass(c, s, r) != s {
      SettleFromIterates(c, Pass(c, s, r), r, fuel - 1);
      var k :| 0 <= k <= fuel - 1 && SettleFrom(c, Pass(c, s, r), r, fuel - 1) == Iterate(c, Pass(c, s, r), r, k)
        && (k == fuel - 1 || Pass(c, Iterate(c, Pass(c, s, r), r, k), r) == Iterate(c, Pass(c, s, r), r, k));
      IterateShift(c, s, r, k);
      assert SettleFrom(c, s, r, fuel) == Iterate(c, s, r, k + 1);
    } else {
      assert SettleFrom(c, s, r, fuel) == Iterate(c, s, r, 0);
    }
  }

  lemma {:induction false} IterateShift(c: Config, s: State, r: Reading, k: nat)
    ensures Iterate(c, Pass(c, s, r), r, k) == Iterate(c, s, r, k + 1)
  {
    if k > 0 {
      IterateShift(c, s, r, k - 1);
    }
  }

  lemma {:induction false} IterateKeepsConsistent(c: Config, s: State, r: Reading, k: nat)
    requires Consistent(s)
    ensures Consistent(Iterate(c, s, r, k))
  {
    if k > 0 {
      IterateKeepsConsistent(c, s, r, k - 1);
      PassKeepsConsistent(c, Iterate(c, s, r, k - 1), r);
    }
  }

  /** A settled evaluation is consistent and a fixed point: one more pass changes nothing. */
  lemma SettleIsFixedPoint(c: Config, s: State, r: Reading)
    requires Consistent(s) && Settles(c)
    ensures Pass(c, Settle(c, s, r), r) == Settle(c, s, r)
    ensures Consistent(Settle(c, s, r))
  {
    SettleFromIterates(c, s, r, 3);
    var k :| 0 <= k <= 3 && Settle(c, s, r) == Iterate(c, s, r, k)
      && (k == 3 || Pass(c, Iterate(c, s, r, k), r) == Iterate(c, s, r, k));
    SettlesWithinThree(c, s, r);
    IterateKeepsConsistent(c, s, r, k);
  }

  /** The worked scenarios with the default configuration: cpu 95 with critical health enters
      with reason 'ghost' (the later write wins); two seconds later, cpu 30 and healthy, safe mode
      holds; at six seconds the recovery mark is set and the re-run leaves; health critical
      through the error rate alone enters with 'ghost'. */
  lemma DefaultScenarios()
    ensures Settle(DefaultConfig, AllClear, Reading(95.0, Critical, 0)) == Activated(Ghost, 0)
    ensures Settle(DefaultConfig, Activated(Ghost, 0), Reading(30.0, Healthy, 2000)) == Activated(Ghost, 0)
    ensures Settle(DefaultConfig, Activated(Ghost, 0), Reading(30.0, Healthy, 6000)) == AllClear
    ensures Settle(DefaultConfig, AllClear, Reading(50.0, Critical, 0)) == Activated(Ghost, 0)
  {
  }

  /** The hook's state: the merged configuration and the state cell. */
  class Controller {
    const config: Config
    var state: State

    constructor (overrides: ConfigOverrides)
      ensures config == MergeConfig(overrides)
      ensures state == AllClear
    {
      config := MergeConfig(overrides);
      state := AllClear;
    }

    /** One pass of the monitoring effect. All four checks read the state as it was when the
        pass began; the writes happen in source order and the last one wins. */
    method Step(cpu: real, health: Health, now: int)
      modifies this
      ensures state == Pass(config, old(state), Reading(cpu, health, now))
    {
      var pre := state;
      if !pre.isSafeMode && cpu > config.criticalThreshold {
        state := Activated(Cpu, now);
      }
      if !pre.isSafeMode && health == Critical {
        state := Activated(Ghost, now);
      }
      if pre.isSafeMode && pre.activatedAt.Some? {
        var elapsed := now - pre.activatedAt.value;
        if elapsed > config.cooldownDuration {
          state := state.(canRecover := true);
        }
      }
      if pre.isSafeMode && pre.canRecover && cpu < config.recoveryThreshold && health == Healthy {
        state := AllClear;
      }
    }

    /** The evaluation of one snapshot: the effect re-runs while a pass changes the state. */
    method Evaluate(cpu: real, health: Health, now: int) returns (passes: nat)
      requires Consistent(state) && Settles(config)
      modifies this
      ensures state == Settle(config, old(state), Reading(cpu, health, now))
      ensures Pass(config, state, Reading(cpu, health, now)) == state && Consistent(state)
      ensures 1 <= passes <= 4
    {
      ghost var r := Reading(cpu, health, now);
      ghost var s0 := state;
      SettlesWithinThree(config, s0, r);
      SettleIsFixedPoint(config, s0, r);
      var before := state;
      Step(cpu, health, now);
      passes := 1;
      while state != before
        invariant 1 <= passes <= 4
        invariant before == Iterate(config, s0, r, passes - 1) && state == Pass(config, before, r)
        invariant Settle(config, s0, r) == SettleFrom(config, before, r, 4 - passes)
        decreases 4 - passes
      {
        before := state;
        Step(cpu, health, now);
        passes := passes + 1;
      }
    }

    /** `forceActivate`: enter (or re-enter) with reason 'manual' from either state. */
    method ForceActivate(now: int)
      modifies this
      ensures state == Activated(Manual, now)
    {
      state := Activated(Manual, now);
    }

    /** `forceDeactivate`: back to all-clear from either state, cooldown or not. */
    method ForceDeactivate()
      modifies this
      ensures state == AllClear
    {
      state := AllClear;
    }
  }

  /** The CSS classes `useSafeModeStyles` derives from the safe-mode flag. */
  datatype Styles = Styles(frameClasses: string, textClasses: string, glowClasses: string, pulseSpeed: string)

  const SafeStyles := Styles("bg-blue-900 shadow-[0_0_50px_rgba(0,100,255,0.5)] transition-all duration-1000",
                             "blur-sm grayscale", "opacity-30 saturate-50", "animate-pulse-slow")

  const NormalStyles := Styles("bg-[var(--metallic-gradient)] animate-[metallic-pulse_4s_infinite] bg-[length:200%_200%]",
                               "blur-0 grayscale-0", "opacity-100 saturate-100", "animate-pulse")

  function StylesFor(isSafeMode: bool): Styles {
    Styles(if isSafeMode then SafeStyles.frameClasses else NormalStyles.frameClasses,
           if isSafeMode then SafeStyles.textClasses else NormalStyles.textClasses,
           if isSafeMode then SafeStyles.glowClasses else NormalStyles.glowClasses,
           if isSafeMode then SafeStyles.pulseSpeed else NormalStyles.pulseSpeed)
  }

  /** Each of the four class choices alone tells the safe-mode flag: switching the flag changes
      every field, so the four switch together and the two sets differ in every field. */
  lemma StylesSwitchTogether(a: bool, b: bool)
    ensures StylesFor(a).frameClasses == StylesFor(b).frameClasses <==> a == b
    ensures StylesFor(a).textClasses == StylesFor(b).textClasses <==> a == b
    ensures StylesFor(a).glowClasses == StylesFor(b).glowClasses <==> a == b
    ensures StylesFor(a).pulseSpeed == StylesFor(b).pulseSpeed <==> a == b
  {
  }
}
