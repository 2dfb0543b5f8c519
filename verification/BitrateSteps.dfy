/**
 How far one report moves the bitrate: the size of a back-off by round-trip time and loss, the size of an increase and
 what it waits for, and how slowly increases follow each other.
 */
module BitrateSteps {
  import opened Common
  import opened BitrateController

  /** The report asks for a back-off and the cooldown is over. */
  predicate Congested(c: Settings, s: State, loss: real, rtt: real, now: int) {
    loss >= (if rtt < 20.0 then 0.25 else c.lossThreshold) && now - s.lastChange >= c.decreaseCooldownMs * 1_000_000
  }

  /** Tenths of the bitrate that a back-off leaves. */
  function TenthsLeft(loss: real, rtt: real): int {
    if rtt < 20.0 then 9 else if loss >= 0.10 then 6 else 8
  }

  /** The whole number below a share of tenths. */
  predicate IsTenths(result: int, before: int, tenths: int) {
    10 * result <= tenths * before < 10 * result + 10
  }

  lemma TruncatedTenths(before: int, share: real, tenths: int)
    requires before >= 0 && tenths >= 0 && 10.0 * share == tenths as real
    ensures IsTenths(Truncate(before as real * share), before, tenths)
  {
    var x := before as real * share;
    assert 10.0 * x == (tenths * before) as real;
    assert x.Floor as real <= x < x.Floor as real + 1.0;
  }

  lemma TargetIsTenths(before: int, loss: real, rtt: real)
    requires before >= 0
    ensures IsTenths(BackOffTarget(before, loss, rtt), before, TenthsLeft(loss, rtt))
  {
    TruncatedTenths(before, 0.9, 9);
    TruncatedTenths(before, 0.8, 8);
    TruncatedTenths(before, 0.6, 6);
  }

  lemma CongestedBacksOff(c: Settings, s: State, loss: real, rtt: real, now: int)
    requires c.Valid()
    ensures BacksOff(c, s, loss, rtt, now) <==> Congested(c, s, loss, rtt, now)
  {
  }

  /** A back-off leaves 0.9 of the bitrate near the host, 0.6 from afar with a loss of a tenth or more, and 0.8
      otherwise, to the whole bit; or the floor if that is higher. It remembers 0.9 of the bitrate, and its time. */
  lemma BackOffLeavesTenths(c: Settings, s: State, loss: real, rtt: real, now: int)
    requires c.Valid() && InRange(c, s) && Congested(c, s, loss, rtt, now)
    ensures var after := Next(c, s, Report(loss, rtt, now));
            var tenths := TenthsLeft(loss, rtt);
            && (10 * c.Floor() <= tenths * s.current ==> IsTenths(after.current, s.current, tenths))
            && (10 * c.Floor() > tenths * s.current ==> after.current == Min(c.Floor(), UpperLimit(c, s)))
            && IsTenths(after.congestionCeiling, s.current, 9) && after.ceilingSetTime == now
            && after.lastChange == now && after.cleanSamples == 0
  {
    CongestedBacksOff(c, s, loss, rtt, now);
    TargetIsTenths(s.current, loss, rtt);
    TruncatedTenths(s.current, 0.9, 9);
  }

  lemma TenthsAreMonotone(before: int, a: int, ka: int, b: int, kb: int)
    requires IsTenths(a, before, ka) && IsTenths(b, before, kb) && ka <= kb && before >= 0
    ensures a <= b
  {
    assert ka * before <= kb * before;
  }

  /** Of two reports with the same round-trip time that both back off, the one with more loss never leaves more. */
  lemma MoreLossCutsNoLess(c: Settings, s: State, light: real, heavy: real, rtt: real, now: int)
    requires c.Valid() && InRange(c, s) && light <= heavy
    requires Congested(c, s, light, rtt, now) && Congested(c, s, heavy, rtt, now)
    ensures Next(c, s, Report(heavy, rtt, now)).current <= Next(c, s, Report(light, rtt, now)).current
  {
    CongestedBacksOff(c, s, light, rtt, now);
    CongestedBacksOff(c, s, heavy, rtt, now);
    TargetIsTenths(s.current, light, rtt);
    TargetIsTenths(s.current, heavy, rtt);
    TenthsAreMonotone(s.current, BackOffTarget(s.current, heavy, rtt), TenthsLeft(heavy, rtt),
                      BackOffTarget(s.current, light, rtt), TenthsLeft(light, rtt));
  }

  // ---------------------------------------------------------------------------------------------
  // Increases
  // ---------------------------------------------------------------------------------------------

  /** The highest target of an increase: an armed ceiling counts for less than 31 s. */
  function Highest(c: Settings, s: State, now: int): int {
    var limit := Min(c.controllerMax, s.profileCeiling);
    if s.congestionCeiling > 0 && now - s.ceilingSetTime < 31_000_000_000 then Min(limit, s.congestionCeiling)
    else limit
  }

  /** Enough clean reports, this one included, and enough time since the last change. */
  predicate IncreaseDue(c: Settings, s: State, rtt: real, now: int) {
    if rtt < 20.0 then s.cleanSamples + 1 >= 1 && now - s.lastChange >= 500_000_000
    else s.cleanSamples + 1 >= c.cleanSamplesRequired && now - s.lastChange >= c.increaseIntervalMs * 1_000_000
  }

  /** Near the host an increase is twice the step. */
  function StepOf(c: Settings, rtt: real): int {
    if rtt < 20.0 then 2 * c.increaseStep else c.increaseStep
  }

  predicate IsLossy(c: Settings, loss: real, rtt: real) {
    loss >= if rtt < 20.0 then 0.25 else c.lossThreshold
  }

  /** A clean report raises the target by one step exactly when an increase is due and its target within every limit; it
      starts the count of clean reports again whenever one is due. A lossy report during the cooldown only starts it
      again. */
  lemma OtherReportsStep(c: Settings, s: State, loss: real, rtt: real, now: int)
    requires c.Valid() && InRange(c, s) && !Congested(c, s, loss, rtt, now) && s.cleanSamples >= 0
    ensures var after := Next(c, s, Report(loss, rtt, now));
            var rises := !IsLossy(c, loss, rtt) && IncreaseDue(c, s, rtt, now)
                         && s.current + StepOf(c, rtt) <= Highest(c, s, now);
            && after.current == (if rises then Min(s.current + StepOf(c, rtt), UpperLimit(c, s)) else s.current)
            && after.lastChange == (if rises then now else s.lastChange)
            && after.cleanSamples == (if IsLossy(c, loss, rtt) || IncreaseDue(c, s, rtt, now) then 0
                                      else s.cleanSamples + 1)
            && (IsLossy(c, loss, rtt) ==> after == s.(cleanSamples := 0))
  {
    CongestedBacksOff(c, s, loss, rtt, now);
    TimesAgree(c, s, now);
  }

  lemma TimesAgree(c: Settings, s: State, now: int)
    requires c.Valid()
    ensures Quotient(now - s.lastChange, NS_PER_MS) >= 500 <==> now - s.lastChange >= 500_000_000
    ensures Quotient(now - s.lastChange, NS_PER_MS) >= c.increaseIntervalMs
            <==> now - s.lastChange >= c.increaseIntervalMs * 1_000_000
    ensures Quotient(now - s.ceilingSetTime, NS_PER_S) > 30 <==> now - s.ceilingSetTime >= 31_000_000_000
  {
  }

  /** The generation tells every change of the target by a report or a ceiling, and nothing else. */
  lemma GenerationTellsChange(c: Settings, s: State, action: Action)
    requires c.Valid() && !action.ApplyProfile?
    ensures var after := Next(c, s, action);
            after.generation == s.generation + if after.current == s.current then 0 else 1
  {
  }

  // ---------------------------------------------------------------------------------------------
  // Runs
  // ---------------------------------------------------------------------------------------------

  /** No report is older than the last change before it. */
  predicate Steady(c: Settings, s: State, actions: seq<Action>) {
    actions == [] ||
    var before, last := After(c, s, actions[..|actions| - 1]), actions[|actions| - 1];
    Steady(c, s, actions[..|actions| - 1]) && !last.ApplyProfile? && (last.Report? ==> last.now >= before.lastChange)
  }

  /** The number of times a report without congestion raised the target. */
  function Rises(c: Settings, s: State, actions: seq<Action>): nat {
    if actions == [] then 0
    else
      var before, last := After(c, s, actions[..|actions| - 1]), actions[|actions| - 1];
      Rises(c, s, actions[..|actions| - 1]) +
      if last.Report? && !Congested(c, before, last.loss, last.rtt, last.now)
         && Next(c, before, last).current > before.current then 1 else 0
  }

  function Spacing(c: Settings): int {
    Min(500, c.increaseIntervalMs) * 1_000_000
  }

  /** Each step of a run: a rise takes its time and adds at most two steps; nothing else passes the controller's
      minimum. */
  lemma StepIsSlow(c: Settings, s: State, action: Action)
    requires c.Valid() && InRange(c, s) && s.cleanSamples >= 0 && !action.ApplyProfile?
    requires action.Report? ==> action.now >= s.lastChange
    ensures var after := Next(c, s, action);
            var rose := action.Report? && !Congested(c, s, action.loss, action.rtt, action.now)
                        && after.current > s.current;
            && after.cleanSamples >= 0 && after.lastChange >= s.lastChange
            && (rose ==> after.lastChange >= s.lastChange + Spacing(c)
                         && after.current <= s.current + 2 * c.increaseStep)
            && (!rose ==> after.current <= Max(s.current, c.controllerMin))
  {
    if action.Report? {
      if Congested(c, s, action.loss, action.rtt, action.now) {
        CongestedBacksOff(c, s, action.loss, action.rtt, action.now);
        BackOffTargetIsLower(s.current, action.loss, action.rtt);
      } else {
        OtherReportsStep(c, s, action.loss, action.rtt, action.now);
      }
    }
  }

  lemma OneMore(n: int, x: int)
    ensures (n + 1) * x == n * x + x
  {
  }

  /** Over any run of reports and ceilings: increases are at least the shorter of 500 ms and the configured interval
      apart, and n of them take the target up by at most 2 n steps, from where it was or the controller's minimum.
      */
  lemma {:induction false} IncreasesAreSlow(c: Settings, s: State, actions: seq<Action>)
    requires c.Valid() && InRange(c, s) && s.cleanSamples >= 0 && Steady(c, s, actions)
    ensures var after, rises := After(c, s, actions), Rises(c, s, actions);
            && InRange(c, after) && after.cleanSamples >= 0
            && rises * Spacing(c) <= after.lastChange - s.lastChange
            && after.current <= Max(s.current, c.controllerMin) + rises * (2 * c.increaseStep)
  {
    if actions != [] {
      var before, last := After(c, s, actions[..|actions| - 1]), actions[|actions| - 1];
      var rises := Rises(c, s, actions[..|actions| - 1]);
      IncreasesAreSlow(c, s, actions[..|actions| - 1]);
      StepIsSlow(c, before, last);
      StepStaysInRange(c, before, last);
      OneMore(rises, Spacing(c));
      OneMore(rises, 2 * c.increaseStep);
      NotNegative(rises, 2 * c.increaseStep);
    }
  }

  lemma NotNegative(a: int, b: int)
    requires a >= 0 && b >= 0
    ensures a * b >= 0
  {
  }

  /** The ceiling that was set last, by itself or with a profile; none if that was not positive. */
  function LastCeiling(s: State, actions: seq<Action>): int {
    if actions == [] then s.profileCeiling
    else
      match actions[|actions| - 1]
      case Report(_, _, _) => LastCeiling(s, actions[..|actions| - 1])
      case SetCeiling(ceiling) => if ceiling > 0 then ceiling else 0x7FFF_FFFF
      case ApplyProfile(bitrate, _) => if bitrate > 0 then bitrate else 0x7FFF_FFFF
  }

  /** Over any run the target is within the configured limits, and at most the ceiling set last, but never below the
      configured minimum. */
  lemma {:induction false} TargetRespectsLastCeiling(c: Settings, s: State, actions: seq<Action>)
    requires c.Valid() && c.minBitrate <= s.current <= Max(c.minBitrate, Min(c.maxBitrate, s.profileCeiling))
    ensures var after, ceiling := After(c, s, actions), LastCeiling(s, actions);
            && after.profileCeiling == ceiling
            && c.minBitrate <= after.current <= c.maxBitrate && after.current <= Max(c.minBitrate, ceiling)
  {
    if actions != [] {
      TargetRespectsLastCeiling(c, s, actions[..|actions| - 1]);
    }
    TargetStaysInRange(c, s, actions);
  }
}
