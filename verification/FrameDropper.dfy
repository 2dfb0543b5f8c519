/**
 Frame dropping under congestion: the assessed network condition picks a drop ratio, an accumulator turns the ratio into
 single drops, and a minimum interval keeps accepted frames apart. Ratios are real numbers and times are nanoseconds.
 */
module FrameDropper {
  datatype Condition = Excellent | Good | Fair | Poor | Critical

  function Severity(condition: Condition): nat {
    match condition
    case Excellent => 0
    case Good => 1
    case Fair => 2
    case Poor => 3
    case Critical => 4
  }

  datatype Levels<T> = Levels(excellent: T, good: T, fair: T, poor: T)

  datatype Ratios = Ratios(excellent: real, good: real, fair: real, poor: real, critical: real)

  datatype Config = Config(rtt: Levels<real>, loss: Levels<real>, queue: Levels<nat>, ratios: Ratios,
                           enableAdaptiveDropping: bool, minFrameIntervalMs: nat)

  datatype Stats = Stats(rttMs: real, packetLoss: real, pacerQueueLength: nat)

  function Assess(config: Config, stats: Stats): Condition {
    if stats.rttMs >= config.rtt.poor && stats.packetLoss >= config.loss.poor &&
       stats.pacerQueueLength >= config.queue.poor then Critical
    else if stats.rttMs >= config.rtt.poor || stats.packetLoss >= config.loss.poor ||
            stats.pacerQueueLength >= config.queue.poor then Poor
    else if stats.rttMs >= config.rtt.fair || stats.packetLoss >= config.loss.fair ||
            stats.pacerQueueLength >= config.queue.fair then Fair
    else if stats.rttMs <= config.rtt.excellent && stats.packetLoss <= config.loss.excellent &&
            stats.pacerQueueLength <= config.queue.excellent then Excellent
    else Good
  }

  function ClampToUnit(x: real): real {
    if x < 0.0 then 0.0 else if x > 1.0 then 1.0 else x
  }

  /** The share of frames to drop; without adaptive dropping only a critical network drops. */
  function Ratio(config: Config, condition: Condition): real {
    if !config.enableAdaptiveDropping && condition != Critical then 0.0
    else
      ClampToUnit(match condition
            case Excellent => config.ratios.excellent
            case Good => config.ratios.good
            case Fair => config.ratios.fair
            case Poor => config.ratios.poor
            case Critical => config.ratios.critical)
  }

  function Ceiling(x: real): int {
    -(-x).Floor
  }

  /** Division of the clock difference drops the fraction, towards zero. */
  function Milliseconds(nanoseconds: int): int {
    if nanoseconds >= 0 then nanoseconds / 1_000_000 else -(-nanoseconds / 1_000_000)
  }

  datatype Dropping = Dropping(frameCounter: nat, framesDropped: nat, framesSent: nat, accumulator: real,
                               lastFrameTime: int)

  datatype Decision = Decision(drop: bool, condition: Condition, ratio: real, framesUntilNext: int)

  datatype Control = Control(dropping: Dropping, stats: Stats, dropMayBeNeeded: bool)

  /** One ratio fed to the accumulator: what is left in it, and whether it made a drop. */
  function Accumulate(accumulator: real, ratio: real): (real, bool) {
    if ratio <= 0.0 then (0.0, false)
    else if accumulator + ratio >= 1.0 then (accumulator + ratio - 1.0, true)
    else (accumulator + ratio, false)
  }

  function UntilNext(accumulator: real, ratio: real): int
    requires ratio > 0.0
  {
    Ceiling((1.0 - accumulator) / ratio)
  }

  predicate FastPath(config: Config, c: Control) {
    !c.dropMayBeNeeded && config.minFrameIntervalMs == 0
  }

  predicate TooSoon(config: Config, d: Dropping, now: int) {
    Milliseconds(now - d.lastFrameTime) < config.minFrameIntervalMs
  }

  /** The decision of an enabled controller on one frame. */
  function Decide(config: Config, c: Control, now: int): (Control, Decision) {
    if FastPath(config, c) then (c, Decision(false, Excellent, 0.0, 0)) else FullDecide(config, c, now)
  }

  /** The decision behind the fast path. */
  function FullDecide(config: Config, c: Control, now: int): (Control, Decision) {
    var d := c.dropping;
    if TooSoon(config, d, now) then
      (c.(dropping := d.(frameCounter := d.frameCounter + 1, framesDropped := d.framesDropped + 1)),
       Decision(true, Excellent, 0.0, 1))
    else
      var condition := Assess(config, c.stats);
      var ratio := Ratio(config, condition);
      var (left, drop) := Accumulate(d.accumulator, ratio);
      if drop then
        (c.(dropping := Dropping(d.frameCounter + 1, d.framesDropped + 1, d.framesSent, left, d.lastFrameTime)),
         Decision(true, condition, ratio, UntilNext(left, ratio)))
      else
        (c.(dropping := Dropping(d.frameCounter + 1, d.framesDropped, d.framesSent + 1, left, now)),
         Decision(false, condition, ratio, 0))
  }

  predicate DropPossible(condition: Condition) {
    condition.Fair? || condition.Poor? || condition.Critical?
  }

  function Updated(config: Config, c: Control, stats: Stats): Control {
    c.(stats := stats, dropMayBeNeeded := DropPossible(Assess(config, stats)))
  }

  class QualityController {
    const config: Config
    var isEnabled: bool
    var currentStats: Stats
    var dropMayBeNeeded: bool
    var frameCounter: nat
    var framesDropped: nat
    var framesSent: nat
    var dropAccumulator: real
    var lastFrameTime: int

    ghost function Value(): Control
      reads this
    {
      Control(Dropping(frameCounter, framesDropped, framesSent, dropAccumulator, lastFrameTime),
              currentStats, dropMayBeNeeded)
    }

    constructor (config: Config)
      ensures this.config == config && !isEnabled && Value() == INITIAL
    {
      this.config := config;
      isEnabled, currentStats, dropMayBeNeeded := false, Stats(0.0, 0.0, 0), false;
      frameCounter, framesDropped, framesSent, dropAccumulator, lastFrameTime := 0, 0, 0, 0.0, 0;
    }

    method SetEnabled(enabled: bool)
      modifies this`isEnabled
      ensures isEnabled == enabled
    {
      isEnabled := enabled;
    }

    method UpdateNetworkStats(stats: Stats)
      modifies this`currentStats, this`dropMayBeNeeded
      ensures Value() == Updated(config, old(Value()), stats)
    {
      currentStats := stats;
      dropMayBeNeeded := DropPossible(Assess(config, currentStats));
    }

    method ShouldDropFrame(now: int) returns (decision: Decision)
      modifies this`frameCounter, this`framesDropped, this`framesSent, this`dropAccumulator, this`lastFrameTime
      ensures !isEnabled ==> Value() == old(Value()) && decision == Decision(false, Excellent, 0.0, 0)
      ensures isEnabled ==> (Value(), decision) == Decide(config, old(Value()), now)
    {
      if !isEnabled || (!dropMayBeNeeded && config.minFrameIntervalMs == 0) {
        return Decision(false, Excellent, 0.0, 0);
      }
      if Milliseconds(now - lastFrameTime) < config.minFrameIntervalMs {
        frameCounter := frameCounter + 1;
        framesDropped := framesDropped + 1;
        return Decision(true, Excellent, 0.0, 1);
      }
      var condition := Assess(config, currentStats);
      var dropRatio := Ratio(config, condition);
      var shouldDrop, framesUntilNext := false, 0;
      if dropRatio > 0.0 {
        dropAccumulator := dropAccumulator + dropRatio;
        if dropAccumulator >= 1.0 {
          dropAccumulator := dropAccumulator - 1.0;
          shouldDrop := true;
        }
        framesUntilNext := UntilNext(dropAccumulator, dropRatio);
      } else {
        dropAccumulator := 0.0;
      }
      frameCounter := frameCounter + 1;
      if shouldDrop {
        framesDropped := framesDropped + 1;
        decision := Decision(true, condition, dropRatio, framesUntilNext);
      } else {
        framesSent := framesSent + 1;
        lastFrameTime := now;
        decision := Decision(false, condition, dropRatio, 0);
      }
    }
  }

  const INITIAL := Control(Dropping(0, 0, 0, 0.0, 0), Stats(0.0, 0.0, 0), false)

  // ---------------------------------------------------------------------------------------------
  // The condition
  // ---------------------------------------------------------------------------------------------

  /** Whatever the thresholds are, a network that is worse in every measure is never assessed better. */
  lemma WorseNetworkIsNoBetter(config: Config, a: Stats, b: Stats)
    requires a.rttMs <= b.rttMs && a.packetLoss <= b.packetLoss && a.pacerQueueLength <= b.pacerQueueLength
    ensures Severity(Assess(config, a)) <= Severity(Assess(config, b))
  {
  }

  // ---------------------------------------------------------------------------------------------
  // The accumulator
  // ---------------------------------------------------------------------------------------------

  function Sum(ratios: seq<real>): real {
    if ratios == [] then 0.0 else Sum(ratios[..|ratios| - 1]) + ratios[|ratios| - 1]
  }

  /** The accumulator after a run of ratios, and the drops it made. */
  function AccumulateAll(accumulator: real, ratios: seq<real>): (real, nat) {
    if ratios == [] then (accumulator, 0)
    else
      var (before, drops) := AccumulateAll(accumulator, ratios[..|ratios| - 1]);
      var (left, drop) := Accumulate(before, ratios[|ratios| - 1]);
      (left, if drop then drops + 1 else drops)
  }

  predicate Fraction(x: real) {
    0.0 <= x < 1.0
  }

  ghost predicate ProperRatios(ratios: seq<real>) {
    forall k :: 0 <= k < |ratios| ==> 0.0 < ratios[k] <= 1.0
  }

  /** Exactly the whole part of all the ratios has been dropped; the rest is in the accumulator. */
  lemma {:induction false} DropsAreWholePart(accumulator: real, ratios: seq<real>)
    requires Fraction(accumulator) && ProperRatios(ratios)
    ensures var (left, drops) := AccumulateAll(accumulator, ratios);
            && Fraction(left) && left + drops as real == accumulator + Sum(ratios)
            && drops == (accumulator + Sum(ratios)).Floor
  {
    if ratios != [] {
      DropsAreWholePart(accumulator, ratios[..|ratios| - 1]);
    }
  }

  function Repeat(ratio: real, count: nat): (ratios: seq<real>)
    ensures |ratios| == count && forall k :: 0 <= k < count ==> ratios[k] == ratio
  {
    seq(count, _ => ratio)
  }

  lemma {:induction false} SumOfRepeat(ratio: real, count: nat)
    ensures Sum(Repeat(ratio, count)) == count as real * ratio
  {
    if count > 0 {
      SumOfRepeat(ratio, count - 1);
      assert Repeat(ratio, count)[..count - 1] == Repeat(ratio, count - 1);
    }
  }

  lemma TimesRatio(k: int, x: real, ratio: real)
    requires ratio > 0.0
    ensures k as real < x / ratio ==> k as real * ratio < x
    ensures k as real >= x / ratio ==> k as real * ratio >= x
  {
    var q := x / ratio;
    assert q * ratio == x;
    if k as real < q {
      assert (q - k as real) * ratio > 0.0;
    } else {
      assert (k as real - q) * ratio >= 0.0;
    }
  }

  lemma MultiplesReach(k: nat, n: int, x: real, ratio: real)
    requires 0.0 < ratio <= 1.0 && n as real >= x / ratio > (n - 1) as real && k <= n
    ensures k < n ==> 0.0 <= k as real * ratio < x
    ensures k == n ==> x <= k as real * ratio < x + 1.0
  {
    TimesRatio(k, x, ratio);
    if k == n {
      TimesRatio(k - 1, x, ratio);
      assert k as real * ratio == (k - 1) as real * ratio + ratio;
    }
  }

  /** The number announced with a drop is exact: at the same ratio that many further frames bring the next drop, and
      fewer bring none. */
  lemma UntilNextIsExact(accumulator: real, ratio: real, k: nat)
    requires Fraction(accumulator) && 0.0 < ratio <= 1.0
    requires k <= UntilNext(accumulator, ratio)
    ensures UntilNext(accumulator, ratio) >= 1
    ensures AccumulateAll(accumulator, Repeat(ratio, k)).1 == if k == UntilNext(accumulator, ratio) then 1 else 0
  {
    var n := UntilNext(accumulator, ratio);
    var x := 1.0 - accumulator;
    assert n as real >= x / ratio > (n - 1) as real;
    TimesRatio(0, x, ratio);
    SumOfRepeat(ratio, k);
    DropsAreWholePart(accumulator, Repeat(ratio, k));
    MultiplesReach(k, n, x, ratio);
    assert (accumulator + Sum(Repeat(ratio, k))).Floor == if k == n then 1 else 0;
  }

  // ---------------------------------------------------------------------------------------------
  // Runs
  // ---------------------------------------------------------------------------------------------

  datatype Event = Frame(now: int) | Feedback(stats: Stats)

  function Step(config: Config, c: Control, event: Event): Control {
    match event
    case Frame(now) => Decide(config, c, now).0
    case Feedback(stats) => Updated(config, c, stats)
  }

  /** An enabled controller over a run of frames and feedback. */
  function Run(config: Config, events: seq<Event>): Control {
    if events == [] then INITIAL
    else Step(config, Run(config, events[..|events| - 1]), events[|events| - 1])
  }

  /** The times of the accepted frames. */
  function Accepted(config: Config, events: seq<Event>): seq<int> {
    if events == [] then []
    else
      var before, last := events[..|events| - 1], events[|events| - 1];
      if last.Frame? && !Decide(config, Run(config, before), last.now).1.drop then
        Accepted(config, before) + [last.now]
      else Accepted(config, before)
  }

  /** The ratios that reached the accumulator, in order. */
  function Applied(config: Config, events: seq<Event>): seq<real> {
    if events == [] then []
    else
      var before, last := events[..|events| - 1], events[|events| - 1];
      var c := Run(config, before);
      if last.Frame? && !FastPath(config, c) && !TooSoon(config, c.dropping, last.now) then
        Applied(config, before) + [Ratio(config, Assess(config, c.stats))]
      else Applied(config, before)
  }

  /** The frames dropped for coming too soon after an accepted one. */
  function Hurried(config: Config, events: seq<Event>): nat {
    if events == [] then 0
    else
      var before, last := events[..|events| - 1], events[|events| - 1];
      var c := Run(config, before);
      if last.Frame? && !FastPath(config, c) && TooSoon(config, c.dropping, last.now) then Hurried(config, before) + 1
      else Hurried(config, before)
  }

  /** The accumulator sees the applied ratios and nothing else, and every drop is its own or one of a hurried frame. */
  lemma {:induction false} RunAccumulates(config: Config, events: seq<Event>)
    ensures var d := Run(config, events).dropping;
            var (left, drops) := AccumulateAll(0.0, Applied(config, events));
            d.accumulator == left && d.framesDropped == drops + Hurried(config, events)
  {
    if events != [] {
      var before, last := events[..|events| - 1], events[|events| - 1];
      RunAccumulates(config, before);
      var c := Run(config, before);
      if last.Frame? && !FastPath(config, c) && !TooSoon(config, c.dropping, last.now) {
        var ratio := Ratio(config, Assess(config, c.stats));
        assert (Applied(config, before) + [ratio])[..|Applied(config, before)|] == Applied(config, before);
      }
    }
  }

  /** Over any run of frames and feedback in which no applied ratio is zero: the frames dropped are the hurried ones and
      the whole part of the sum of the ratios. */
  lemma RunDropsExactly(config: Config, events: seq<Event>)
    requires forall k :: 0 <= k < |Applied(config, events)| ==> Applied(config, events)[k] > 0.0
    ensures var d := Run(config, events).dropping;
            && d.framesDropped == Hurried(config, events) + Sum(Applied(config, events)).Floor
            && Fraction(d.accumulator)
  {
    RunAccumulates(config, events);
    AppliedIsClamped(config, events);
    DropsAreWholePart(0.0, Applied(config, events));
  }

  lemma {:induction false} AppliedIsClamped(config: Config, events: seq<Event>)
    ensures forall k :: 0 <= k < |Applied(config, events)| ==> 0.0 <= Applied(config, events)[k] <= 1.0
  {
    if events != [] {
      AppliedIsClamped(config, events[..|events| - 1]);
    }
  }

  /** The accumulator stays a fraction in every run, also across ratios of zero, and every counted frame was sent or
      dropped. */
  lemma {:induction false} RunKeepsFraction(config: Config, events: seq<Event>)
    ensures var d := Run(config, events).dropping;
            Fraction(d.accumulator) && d.frameCounter == d.framesSent + d.framesDropped
  {
    if events != [] {
      RunKeepsFraction(config, events[..|events| - 1]);
    }
  }

  /** Frames accepted in a row are at least the configured interval apart, whatever the clock and the feedback do. */
  lemma {:induction false} AcceptedAreApart(config: Config, events: seq<Event>)
    requires config.minFrameIntervalMs > 0
    ensures var times := Accepted(config, events);
            && (times != [] ==> Run(config, events).dropping.lastFrameTime == times[|times| - 1])
            && forall k :: 0 < k < |times| ==> times[k] - times[k - 1] >= config.minFrameIntervalMs * 1_000_000
  {
    if events != [] {
      AcceptedAreApart(config, events[..|events| - 1]);
    }
  }

  // ---------------------------------------------------------------------------------------------
  // The fast path
  // ---------------------------------------------------------------------------------------------

  /** After feedback the flag of the fast path tells whether the current condition is fair or worse. */
  lemma {:induction false} FlagIsCurrent(config: Config, events: seq<Event>)
    requires exists event :: event in events && event.Feedback?
    ensures var c := Run(config, events);
            c.dropMayBeNeeded <==> Severity(Assess(config, c.stats)) >= Severity(Fair)
  {
    var before, last := events[..|events| - 1], events[|events| - 1];
    if last.Frame? {
      assert events == before + [last];
      FlagIsCurrent(config, before);
    }
  }
}
