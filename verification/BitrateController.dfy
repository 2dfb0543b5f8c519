/**
 The RTCP-driven bitrate controller: back-off on loss with a remembered congestion ceiling, slow
 increase on clean reports, and clamping to the configured limits and the profile's ceiling.
 Times are steady-clock nanoseconds; each call is one atomic step.
 */
module BitrateController {
  import opened Common

  const INT_MAX := 0x7FFF_FFFF
  const NS_PER_MS := 1_000_000
  const NS_PER_S := 1_000_000_000

  /** Conversions and divisions that truncate towards zero. */
  function Truncate(r: real): int {
    if r >= 0.0 then r.Floor else -((-r).Floor)
  }

  function Quotient(a: int, b: int): int
    requires b > 0
  {
    if a >= 0 then a / b else -((-a) / b)
  }

  datatype Settings = Settings(
    minBitrate: int,
    maxBitrate: int,
    controllerMin: int,
    controllerMax: int,
    increaseStep: int,
    decreaseCooldownMs: int,
    cleanSamplesRequired: int,
    increaseIntervalMs: int,
    lossThreshold: real)
  {
    /** What the setters let through; the integer fields are 32-bit. */
    predicate Valid() {
      && lossThreshold >= 0.0
      && 0 < minBitrate <= maxBitrate <= INT_MAX
      && 0 < controllerMin && 0 < controllerMax <= INT_MAX && 0 < increaseStep
      && 0 < decreaseCooldownMs && 0 < cleanSamplesRequired && 0 < increaseIntervalMs
    }

    function Floor(): int {
      Max(minBitrate, controllerMin)
    }
  }

  datatype State = State(
    current: int,
    profileCeiling: int,
    congestionCeiling: int,
    cleanSamples: int,
    lastChange: int,
    ceilingSetTime: int,
    generation: nat)

  function UpperLimit(c: Settings, s: State): int {
    Max(c.minBitrate, Min(c.maxBitrate, s.profileCeiling))
  }

  function Adjusted(c: Settings, s: State, bitrate: int): State {
    var clamped := Clamp(bitrate, c.minBitrate, UpperLimit(c, s));
    if clamped == s.current then s else s.(current := clamped, generation := s.generation + 1)
  }

  function WithCeiling(c: Settings, s: State, ceiling: int): State {
    Adjusted(c, s.(profileCeiling := if ceiling > 0 then ceiling else INT_MAX), s.current)
  }

  /** The capture consumer applies a profile: its bitrate becomes the ceiling and, when it changed, the target. */
  function WithProfile(c: Settings, s: State, bitrate: int, changed: bool): State {
    var capped := WithCeiling(c, s, bitrate);
    if changed then Adjusted(c, capped, bitrate) else capped
  }

  predicate Localhost(rtt: real) {
    rtt < 20.0
  }

  predicate Lossy(c: Settings, loss: real, rtt: real) {
    loss >= if Localhost(rtt) then 0.25 else c.lossThreshold
  }

  predicate BacksOff(c: Settings, s: State, loss: real, rtt: real, now: int) {
    Lossy(c, loss, rtt) && Quotient(now - s.lastChange, NS_PER_MS) >= c.decreaseCooldownMs
  }

  function BackOffTarget(current: int, loss: real, rtt: real): int {
    if Localhost(rtt) then Truncate(current as real * 0.9)
    else if loss >= 0.10 then Truncate(current as real * 0.6)
    else Truncate(current as real * 0.8)
  }

  function BackedOff(c: Settings, s: State, loss: real, rtt: real, now: int): State {
    var remembered := s.(congestionCeiling := Truncate(s.current as real * 0.9), ceilingSetTime := now);
    Adjusted(c, remembered, Max(c.controllerMin, BackOffTarget(s.current, loss, rtt))).(
      lastChange := now, cleanSamples := 0)
  }

  predicate CeilingExpired(s: State, now: int) {
    s.congestionCeiling > 0 && Quotient(now - s.ceilingSetTime, NS_PER_S) > 30
  }

  function IncreaseLimit(c: Settings, s: State): int {
    var limit := Min(c.controllerMax, s.profileCeiling);
    if 0 < s.congestionCeiling < limit then s.congestionCeiling else limit
  }

  function CleanReport(c: Settings, s: State, rtt: real, now: int): State {
    var counted := s.(cleanSamples := s.cleanSamples + 1,
                      congestionCeiling := if CeilingExpired(s, now) then 0 else s.congestionCeiling);
    var required := if Localhost(rtt) then 1 else c.cleanSamplesRequired;
    var interval := if Localhost(rtt) then 500 else c.increaseIntervalMs;
    if Quotient(now - s.lastChange, NS_PER_MS) >= interval && counted.cleanSamples >= required then
      var target := s.current + (if Localhost(rtt) then c.increaseStep * 2 else c.increaseStep);
      if target <= IncreaseLimit(c, counted) then
        Adjusted(c, counted, target).(lastChange := now, cleanSamples := 0)
      else counted.(cleanSamples := 0)
    else counted
  }

  function Reported(c: Settings, s: State, loss: real, rtt: real, now: int): State {
    if BacksOff(c, s, loss, rtt, now) then BackedOff(c, s, loss, rtt, now)
    else if Lossy(c, loss, rtt) then s.(cleanSamples := 0)
    else CleanReport(c, s, rtt, now)
  }

  class Controller {
    const settings: Settings
    var currentBitrate: int
    var profileBitrateCeiling: int
    var congestionCeiling: int
    var cleanSamples: int
    var lastChange: int
    var ceilingSetTime: int
    var bitrateGeneration: nat

    constructor (settings: Settings, current: int, now: int)
      ensures this.settings == settings
      ensures Value() == State(current, INT_MAX, 0, 0, now, now, 0)
    {
      this.settings := settings;
      currentBitrate, profileBitrateCeiling, congestionCeiling := current, INT_MAX, 0;
      cleanSamples, lastChange, ceilingSetTime, bitrateGeneration := 0, now, now, 0;
    }

    function Value(): State
      reads this
    {
      State(currentBitrate, profileBitrateCeiling, congestionCeiling, cleanSamples, lastChange, ceilingSetTime,
            bitrateGeneration)
    }

    method AdjustBitrate(newBitrate: int)
      modifies this`currentBitrate, this`bitrateGeneration
      ensures Value() == Adjusted(settings, old(Value()), newBitrate)
    {
      var effectiveMax := Max(settings.minBitrate, Min(settings.maxBitrate, profileBitrateCeiling));
      var clamped := Clamp(newBitrate, settings.minBitrate, effectiveMax);
      var previous := currentBitrate;
      currentBitrate := clamped;
      if previous == clamped {
        return;
      }
      bitrateGeneration := bitrateGeneration + 1;
    }

    method SetProfileBitrateCeiling(maxBps: int)
      modifies this`profileBitrateCeiling, this`currentBitrate, this`bitrateGeneration
      ensures Value() == WithCeiling(settings, old(Value()), maxBps)
    {
      profileBitrateCeiling := if maxBps > 0 then maxBps else INT_MAX;
      AdjustBitrate(currentBitrate);
    }

    method OnRtcpFeedback(packetLoss: real, rtt: real, now: int)
      modifies this
      ensures Value() == Reported(settings, old(Value()), packetLoss, rtt, now)
    {
      var since := Quotient(now - lastChange, NS_PER_MS);
      var isLocalhost := rtt < 20.0;
      var threshold := if isLocalhost then 0.25 else settings.lossThreshold;
      if packetLoss >= threshold {
        if since >= settings.decreaseCooldownMs {
          BackOff(packetLoss, rtt, now);
        }
        cleanSamples := 0;
        return;
      }
      CountCleanReport(rtt, now);
    }

    method BackOff(packetLoss: real, rtt: real, now: int)
      modifies this
      ensures Value() == BackedOff(settings, old(Value()), packetLoss, rtt, now).(cleanSamples := old(cleanSamples))
    {
      var current := currentBitrate;
      congestionCeiling := Truncate(current as real * 0.9);
      ceilingSetTime := now;
      var target :=
        if rtt < 20.0 then Truncate(current as real * 0.9)
        else if packetLoss >= 0.10 then Truncate(current as real * 0.6)
        else Truncate(current as real * 0.8);
      AdjustBitrate(Max(settings.controllerMin, target));
      lastChange := now;
    }

    method CountCleanReport(rtt: real, now: int)
      modifies this
      ensures Value() == CleanReport(settings, old(Value()), rtt, now)
    {
      var since := Quotient(now - lastChange, NS_PER_MS);
      var isLocalhost := rtt < 20.0;
      cleanSamples := cleanSamples + 1;
      var requiredSamples := if isLocalhost then 1 else settings.cleanSamplesRequired;
      var increaseInterval := if isLocalhost then 500 else settings.increaseIntervalMs;
      if congestionCeiling > 0 && Quotient(now - ceilingSetTime, NS_PER_S) > 30 {
        congestionCeiling := 0;
      }
      if since >= increaseInterval && cleanSamples >= requiredSamples {
        var step := if isLocalhost then settings.increaseStep * 2 else settings.increaseStep;
        var target := currentBitrate + step;
        var effectiveMax := Min(settings.controllerMax, profileBitrateCeiling);
        if congestionCeiling > 0 && congestionCeiling < effectiveMax {
          effectiveMax := congestionCeiling;
        }
        if target <= effectiveMax {
          AdjustBitrate(target);
          lastChange := now;
        }
        cleanSamples := 0;
      }
    }
  }

  // ---------------------------------------------------------------------------------------------
  // Runs
  // ---------------------------------------------------------------------------------------------

  datatype Action =
    | Report(loss: real, rtt: real, now: int)
    | SetCeiling(ceiling: int)
    | ApplyProfile(bitrate: int, changed: bool)

  function Next(c: Settings, s: State, action: Action): State {
    match action
    case Report(loss, rtt, now) => Reported(c, s, loss, rtt, now)
    case SetCeiling(ceiling) => WithCeiling(c, s, ceiling)
    case ApplyProfile(bitrate, changed) => WithProfile(c, s, bitrate, changed)
  }

  function After(c: Settings, s: State, actions: seq<Action>): State {
    if actions == [] then s
    else Next(c, After(c, s, actions[..|actions| - 1]), actions[|actions| - 1])
  }

  predicate InRange(c: Settings, s: State) {
    c.minBitrate <= s.current <= UpperLimit(c, s)
  }

  lemma AdjustedInRange(c: Settings, s: State, bitrate: int)
    requires c.Valid()
    ensures InRange(c, Adjusted(c, s, bitrate))
  {
  }

  lemma StepStaysInRange(c: Settings, s: State, action: Action)
    requires c.Valid() && InRange(c, s)
    ensures InRange(c, Next(c, s, action))
  {
    match action
    case Report(loss, rtt, now) =>
      if BacksOff(c, s, loss, rtt, now) {
        var remembered := s.(congestionCeiling := Truncate(s.current as real * 0.9), ceilingSetTime := now);
        AdjustedInRange(c, remembered, Max(c.controllerMin, BackOffTarget(s.current, loss, rtt)));
      }
    case SetCeiling(ceiling) =>
    case ApplyProfile(bitrate, changed) =>
  }

  /** With fixed limits the target never leaves [min, max(min, min(max, profile ceiling))]. */
  lemma {:induction false} TargetStaysInRange(c: Settings, s: State, actions: seq<Action>)
    requires c.Valid() && InRange(c, s)
    ensures InRange(c, After(c, s, actions))
  {
    if actions != [] {
      TargetStaysInRange(c, s, actions[..|actions| - 1]);
      StepStaysInRange(c, After(c, s, actions[..|actions| - 1]), actions[|actions| - 1]);
    }
  }

  // ---------------------------------------------------------------------------------------------
  // Congestion memory
  // ---------------------------------------------------------------------------------------------

  /** Loss is a share and a round-trip time is not negative. */
  predicate Measured(loss: real, rtt: real) {
    0.0 <= loss <= 1.0 && rtt >= 0.0
  }

  /** Reports and ceiling changes less than 31 s after `since`. */
  predicate Within(action: Action, since: int) {
    match action
    case Report(loss, rtt, now) => Measured(loss, rtt) && 0 <= now - since < 31 * NS_PER_S
    case SetCeiling(_) => true
    case ApplyProfile(_, _) => false
  }

  predicate Remembered(c: Settings, backedOffAt: int, bitrate: int) {
    bitrate <= c.Floor() || bitrate as real <= backedOffAt as real * 0.9
  }

  ghost predicate AllWithin(actions: seq<Action>, since: int) {
    forall i :: 0 <= i < |actions| ==> Within(actions[i], since)
  }

  /** A back-off keeps the target at or below 0.9 of the bitrate it was taken at, or at the configured floor, through
      the given reports and ceiling changes of the following 30 s. */
  ghost predicate BackOffLasts(c: Settings, s: State, loss: real, rtt: real, now: int, actions: seq<Action>) {
    InRange(c, s) && Measured(loss, rtt) && BacksOff(c, s, loss, rtt, now) && AllWithin(actions, now) ==>
      Remembered(c, s.current, After(c, Reported(c, s, loss, rtt, now), actions).current)
  }

  ghost predicate RemembersCongestion(c: Settings) {
    forall s: State, loss: real, rtt: real, now: int, actions: seq<Action> ::
      BackOffLasts(c, s, loss, rtt, now, actions)
  }

  /** The invariant of the 30 s: a ceiling is armed, no older than the back-off, and keeps reports below the bound. */
  ghost predicate Armed(c: Settings, backedOffAt: int, since: int, s: State) {
    && InRange(c, s)
    && 0 < s.congestionCeiling && Remembered(c, backedOffAt, s.congestionCeiling)
    && since <= s.ceilingSetTime
    && Remembered(c, backedOffAt, s.current)
  }

  lemma BackOffTargetIsLower(b: int, loss: real, rtt: real)
    requires b >= 0
    ensures BackOffTarget(b, loss, rtt) as real <= b as real * 0.9
    ensures BackOffTarget(b, loss, rtt) <= b
  {
  }

  lemma BackOffArms(c: Settings, s: State, loss: real, rtt: real, now: int, backedOffAt: int, since: int)
    requires c.Valid() && InRange(c, s) && c.minBitrate >= 2
    requires since <= now
    requires s.current == backedOffAt || Remembered(c, backedOffAt, s.current)
    ensures Armed(c, backedOffAt, since, BackedOff(c, s, loss, rtt, now))
  {
    BackOffTargetIsLower(s.current, loss, rtt);
    assert Remembered(c, backedOffAt, Truncate(s.current as real * 0.9));
    assert Remembered(c, backedOffAt, BackOffTarget(s.current, loss, rtt));
  }

  /** While a ceiling is armed a clean report cannot ask for more than it. */
  lemma CleanReportKeepsArmed(c: Settings, backedOffAt: int, since: int, s: State, rtt: real, now: int)
    requires c.Valid() && Armed(c, backedOffAt, since, s)
    requires now - since < 31 * NS_PER_S
    ensures Armed(c, backedOffAt, since, CleanReport(c, s, rtt, now))
  {
    assert Quotient(now - s.ceilingSetTime, NS_PER_S) <= 30;
  }

  lemma {:induction false} RunKeepsArmed(c: Settings, backedOffAt: int, since: int, s: State, actions: seq<Action>)
    requires c.Valid() && c.minBitrate >= 2
    requires Armed(c, backedOffAt, since, s)
    requires AllWithin(actions, since)
    ensures Armed(c, backedOffAt, since, After(c, s, actions))
  {
    if actions != [] {
      var before := After(c, s, actions[..|actions| - 1]);
      var last := actions[|actions| - 1];
      RunKeepsArmed(c, backedOffAt, since, s, actions[..|actions| - 1]);
      if last.Report? && BacksOff(c, before, last.loss, last.rtt, last.now) {
        BackOffArms(c, before, last.loss, last.rtt, last.now, backedOffAt, since);
      } else if last.Report? && !Lossy(c, last.loss, last.rtt) {
        CleanReportKeepsArmed(c, backedOffAt, since, before, last.rtt, last.now);
      }
    }
  }

  lemma BackOffLowers(c: Settings, s: State, loss: real, rtt: real, now: int)
    requires c.Valid() && InRange(c, s)
    ensures var next := BackedOff(c, s, loss, rtt, now);
            InRange(c, next) && Remembered(c, s.current, next.current)
  {
    BackOffTargetIsLower(s.current, loss, rtt);
  }

  /** Limits under which reports can raise the target above the floor within 31 s of a back-off at 1 bps: the floor
      is below both maxima, and an increase fits. A threshold of zero leaves no clean report from afar. */
  predicate CanForget(c: Settings) {
    && c.minBitrate == 1
    && c.controllerMin < c.maxBitrate && c.controllerMin < c.controllerMax
    && (1 + c.increaseStep * 2 <= c.controllerMax
        || (1 + c.increaseStep <= c.controllerMax && c.increaseIntervalMs < 31_000 && c.lossThreshold > 0.0))
  }

  /** A back-off goes down, or up to the controller's minimum. */
  lemma BackOffStaysRemembered(c: Settings, s: State, loss: real, rtt: real, now: int, backedOffAt: int)
    requires c.Valid() && InRange(c, s) && Remembered(c, backedOffAt, s.current)
    ensures Remembered(c, backedOffAt, BackedOff(c, s, loss, rtt, now).current)
  {
    BackOffTargetIsLower(s.current, loss, rtt);
  }

  /** An increase does not leave the floor, or does not fit, or comes too late. */
  lemma IncreaseStaysRemembered(c: Settings, s: State, rtt: real, now: int, backedOffAt: int, since: int)
    requires c.Valid() && c.minBitrate == 1 && !CanForget(c)
    requires Localhost(rtt) || c.lossThreshold > 0.0
    requires InRange(c, s) && since <= s.lastChange && now - since < 31 * NS_PER_S
    requires Remembered(c, backedOffAt, s.current)
    ensures Remembered(c, backedOffAt, CleanReport(c, s, rtt, now).current)
  {
    assert Quotient(now - s.lastChange, NS_PER_MS) < 31_000;
  }

  lemma {:induction false} NothingRises(c: Settings, s: State, since: int, actions: seq<Action>, backedOffAt: int)
    requires c.Valid() && c.minBitrate == 1 && !CanForget(c)
    requires InRange(c, s) && since <= s.lastChange && Remembered(c, backedOffAt, s.current)
    requires AllWithin(actions, since)
    ensures var after := After(c, s, actions);
            InRange(c, after) && since <= after.lastChange && Remembered(c, backedOffAt, after.current)
  {
    if actions != [] {
      var before := After(c, s, actions[..|actions| - 1]);
      var last := actions[|actions| - 1];
      NothingRises(c, s, since, actions[..|actions| - 1], backedOffAt);
      StepStaysInRange(c, before, last);
      if last.Report? {
        BackOffStaysRemembered(c, before, last.loss, last.rtt, last.now, backedOffAt);
        if !Lossy(c, last.loss, last.rtt) {
          IncreaseStaysRemembered(c, before, last.rtt, last.now, backedOffAt, since);
        }
      }
    }
  }

  /** The state after a back-off at 1 bps and a report that lifts the profile's ceiling: no congestion ceiling is
      armed. */
  function Unarmed(current: int, now: int, cleanSamples: int, generation: nat): State {
    State(current, INT_MAX, 0, cleanSamples, now, now, generation)
  }

  /** A clean report from afar. */
  function Far(c: Settings, now: int): Action {
    Report(0.0, 20.0, now)
  }

  lemma {:induction false} CleanReportsCount(c: Settings, s: State, now: int, count: nat)
    requires c.Valid() && c.lossThreshold > 0.0
    requires count < c.cleanSamplesRequired && s.cleanSamples == 0 && s.congestionCeiling == 0
    ensures After(c, s, seq(count, _ => Far(c, now))) == s.(cleanSamples := count)
  {
    if count > 0 {
      CleanReportsCount(c, s, now, count - 1);
      assert seq(count, _ => Far(c, now))[..count - 1] == seq(count - 1, _ => Far(c, now));
    }
  }

  lemma {:induction false} AfterConcat(c: Settings, s: State, a: seq<Action>, b: seq<Action>)
    ensures After(c, s, a + b) == After(c, After(c, s, a), b)
  {
    if b == [] {
      assert a + b == a;
    } else {
      AfterConcat(c, s, a, b[..|b| - 1]);
      assert (a + b)[..|a + b| - 1] == a + b[..|b| - 1];
    }
  }

  /** The bitrate from which an increase ends above the floor. */
  function LastBelow(c: Settings, step: int): int {
    Min(c.controllerMin, c.controllerMax - step)
  }

  /** Back-off at 1 bps under a profile ceiling that leaves room for the increase, then a lifted ceiling and clean
      reports: one from the local host, or enough from afar. */
  lemma OneBitForgets(c: Settings)
    requires c.Valid() && CanForget(c)
    ensures !RemembersCongestion(c)
  {
    var local := 1 + c.increaseStep * 2 <= c.controllerMax;
    var step := if local then c.increaseStep * 2 else c.increaseStep;
    var x := LastBelow(c, step);
    var s := State(1, x, 0, 0, 0, 0, 0);
    var now := c.decreaseCooldownMs * NS_PER_MS;
    var generation := if x == 1 then 0 else 1;
    BackOffAtOneBit(c, s, now, x, generation);
    var reports;
    if local {
      reports := LocalIncrease(c, x, now, generation);
    } else {
      reports := FarIncrease(c, x, now, generation);
    }
    var actions := [SetCeiling(0)] + reports;
    AfterConcat(c, Reported(c, s, 0.25, 0.0, now), [SetCeiling(0)], reports);
    assert [SetCeiling(0)][..0] == [];
    assert !BackOffLasts(c, s, 0.25, 0.0, now, actions);
  }

  lemma BackOffAtOneBit(c: Settings, s: State, now: int, x: int, generation: nat)
    requires c.Valid() && c.minBitrate == 1 && 1 <= x <= c.controllerMin < c.maxBitrate
    requires s == State(1, x, 0, 0, 0, 0, 0) && now == c.decreaseCooldownMs * NS_PER_MS
    requires generation == if x == 1 then 0 else 1
    ensures InRange(c, s) && BacksOff(c, s, 0.25, 0.0, now)
    ensures Next(c, Reported(c, s, 0.25, 0.0, now), SetCeiling(0)) == Unarmed(x, now, 0, generation)
  {
    assert Quotient(now, NS_PER_MS) == c.decreaseCooldownMs;
  }

  lemma LocalIncrease(c: Settings, x: int, now: int, generation: nat) returns (actions: seq<Action>)
    requires c.Valid() && CanForget(c) && x == LastBelow(c, c.increaseStep * 2) && x >= 1
    ensures AllWithin(actions, now) && After(c, Unarmed(x, now, 0, generation), actions).current > c.controllerMin
  {
    actions := [Report(0.0, 0.0, now + 500 * NS_PER_MS)];
    assert actions[..0] == [];
  }

  lemma FarIncrease(c: Settings, x: int, now: int, generation: nat) returns (actions: seq<Action>)
    requires c.Valid() && CanForget(c) && x == LastBelow(c, c.increaseStep) && x >= 1
    requires c.increaseIntervalMs < 31_000 && c.lossThreshold > 0.0
    ensures AllWithin(actions, now) && After(c, Unarmed(x, now, 0, generation), actions).current > c.controllerMin
  {
    var later := now + c.increaseIntervalMs * NS_PER_MS;
    var count := c.cleanSamplesRequired;
    actions := seq(count, _ => Far(c, later));
    assert Quotient(later - now, NS_PER_MS) == c.increaseIntervalMs;
    CleanReportsCount(c, Unarmed(x, now, 0, generation), later, count - 1);
    assert actions[..count - 1] == seq(count - 1, _ => Far(c, later));
  }

  lemma BackOffIsRemembered(c: Settings, s: State, loss: real, rtt: real, now: int, actions: seq<Action>)
    requires c.Valid() && !CanForget(c)
    requires InRange(c, s) && BacksOff(c, s, loss, rtt, now) && AllWithin(actions, now)
    ensures BackOffLasts(c, s, loss, rtt, now, actions)
  {
    var next := BackedOff(c, s, loss, rtt, now);
    assert Reported(c, s, loss, rtt, now) == next;
    if c.minBitrate >= 2 {
      BackOffArms(c, s, loss, rtt, now, s.current, now);
      RunKeepsArmed(c, s.current, now, next, actions);
    } else {
      BackOffLowers(c, s, loss, rtt, now);
      NothingRises(c, next, now, actions, s.current);
    }
  }

  /** Congestion is remembered, for all limits, exactly if the floor is at least 2 bps or no increase above it fits: a
      back-off at 1 bps arms no ceiling, because 0.9 truncates to none. */
  lemma RemembersCongestionIff(c: Settings)
    requires c.Valid()
    ensures RemembersCongestion(c) <==> !CanForget(c)
  {
    if CanForget(c) {
      OneBitForgets(c);
    } else {
      forall s: State, loss: real, rtt: real, now: int, actions: seq<Action>
        ensures BackOffLasts(c, s, loss, rtt, now, actions)
      {
        if InRange(c, s) && BacksOff(c, s, loss, rtt, now) && AllWithin(actions, now) {
          BackOffIsRemembered(c, s, loss, rtt, now, actions);
        }
      }
    }
  }

  /** The host's configuration clamps the floor to at least 500 kbps: it always remembers. */
  lemma HostRemembersCongestion(c: Settings)
    requires c.Valid() && c.minBitrate >= 500_000
    ensures RemembersCongestion(c)
  {
    RemembersCongestionIff(c);
  }

  // ---------------------------------------------------------------------------------------------
  // Profiles applied in the meantime
  // ---------------------------------------------------------------------------------------------

  /** The target that a changed profile sets. */
  function ProfileTarget(c: Settings, bitrate: int): int {
    Clamp(bitrate, c.minBitrate, c.maxBitrate)
  }

  /** Reports and ceiling changes as before, and profiles with changed bitrates of the given set only. */
  ghost predicate Allowed(action: Action, since: int, bitrates: iset<int>) {
    if action.ApplyProfile? then action.changed ==> action.bitrate in bitrates else Within(action, since)
  }

  ghost predicate AllAllowed(actions: seq<Action>, since: int, bitrates: iset<int>) {
    forall i :: 0 <= i < |actions| ==> Allowed(actions[i], since, bitrates)
  }

  ghost predicate AllRemembered(c: Settings, backedOffAt: int, bitrates: iset<int>) {
    forall bitrate :: bitrate in bitrates ==> Remembered(c, backedOffAt, ProfileTarget(c, bitrate))
  }

  /** A changed bitrate becomes the target whatever was remembered. */
  lemma ProfileSetsTarget(c: Settings, s: State, bitrate: int)
    requires c.Valid()
    ensures WithProfile(c, s, bitrate, true).current == ProfileTarget(c, bitrate)
  {
  }

  /** What holds from the back-off on: an armed ceiling, or limits under which nothing rises. */
  ghost predicate Holds(c: Settings, backedOffAt: int, since: int, s: State) {
    if c.minBitrate >= 2 then Armed(c, backedOffAt, since, s)
    else InRange(c, s) && since <= s.lastChange && Remembered(c, backedOffAt, s.current)
  }

  lemma ProfileHolds(c: Settings, backedOffAt: int, since: int, s: State, bitrate: int, changed: bool)
    requires c.Valid() && Holds(c, backedOffAt, since, s)
    requires changed ==> Remembered(c, backedOffAt, ProfileTarget(c, bitrate))
    ensures Holds(c, backedOffAt, since, WithProfile(c, s, bitrate, changed))
  {
    StepStaysInRange(c, s, ApplyProfile(bitrate, changed));
    if changed {
      ProfileSetsTarget(c, s, bitrate);
    }
  }

  lemma StepHolds(c: Settings, backedOffAt: int, since: int, s: State, action: Action)
    requires c.Valid() && !CanForget(c) && Holds(c, backedOffAt, since, s) && Within(action, since)
    ensures Holds(c, backedOffAt, since, Next(c, s, action))
  {
    assert After(c, s, [action]) == Next(c, s, action) by {
      assert [action][..0] == [];
    }
    if c.minBitrate >= 2 {
      RunKeepsArmed(c, backedOffAt, since, s, [action]);
    } else {
      NothingRises(c, s, since, [action], backedOffAt);
    }
  }

  lemma {:induction false} RunHolds(c: Settings, backedOffAt: int, since: int, s: State, actions: seq<Action>,
                                    bitrates: iset<int>)
    requires c.Valid() && !CanForget(c) && Holds(c, backedOffAt, since, s)
    requires AllAllowed(actions, since, bitrates) && AllRemembered(c, backedOffAt, bitrates)
    ensures Holds(c, backedOffAt, since, After(c, s, actions))
  {
    if actions != [] {
      var before, last := After(c, s, actions[..|actions| - 1]), actions[|actions| - 1];
      RunHolds(c, backedOffAt, since, s, actions[..|actions| - 1], bitrates);
      assert Allowed(last, since, bitrates);
      if last.ApplyProfile? {
        ProfileHolds(c, backedOffAt, since, before, last.bitrate, last.changed);
      } else {
        StepHolds(c, backedOffAt, since, before, last);
      }
    }
  }

  /** A run after the back-off that stays within what is remembered. */
  ghost predicate RunIsRemembered(c: Settings, s: State, loss: real, rtt: real, now: int, actions: seq<Action>,
                                  bitrates: iset<int>) {
    AllAllowed(actions, now, bitrates) ==>
      Remembered(c, s.current, After(c, Reported(c, s, loss, rtt, now), actions).current)
  }

  /** With profiles applied during the 30 s, the target stays within what the back-off remembers, over all runs,
      exactly if every changed bitrate among them does: one that does not breaks it when it is applied right after
      the back-off. */
  lemma ProfilesKeepMemoryIff(c: Settings, s: State, loss: real, rtt: real, now: int, bitrates: iset<int>)
    requires c.Valid() && !CanForget(c) && InRange(c, s) && Measured(loss, rtt) && BacksOff(c, s, loss, rtt, now)
    ensures (forall actions :: RunIsRemembered(c, s, loss, rtt, now, actions, bitrates))
            <==> AllRemembered(c, s.current, bitrates)
  {
    var next := Reported(c, s, loss, rtt, now);
    if AllRemembered(c, s.current, bitrates) {
      forall actions
        ensures RunIsRemembered(c, s, loss, rtt, now, actions, bitrates)
      {
        if AllAllowed(actions, now, bitrates) {
          BackOffHolds(c, s, loss, rtt, now);
          RunHolds(c, s.current, now, next, actions, bitrates);
        }
      }
    } else {
      var bitrate :| bitrate in bitrates && !Remembered(c, s.current, ProfileTarget(c, bitrate));
      var actions := [ApplyProfile(bitrate, true)];
      assert actions[..0] == [];
      ProfileSetsTarget(c, next, bitrate);
      assert !RunIsRemembered(c, s, loss, rtt, now, actions, bitrates);
    }
  }

  lemma BackOffHolds(c: Settings, s: State, loss: real, rtt: real, now: int)
    requires c.Valid() && InRange(c, s) && BacksOff(c, s, loss, rtt, now)
    ensures Holds(c, s.current, now, Reported(c, s, loss, rtt, now))
  {
    if c.minBitrate >= 2 {
      BackOffArms(c, s, loss, rtt, now, s.current, now);
    } else {
      BackOffLowers(c, s, loss, rtt, now);
    }
  }
}
