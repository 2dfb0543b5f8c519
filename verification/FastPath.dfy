/**
 The fast path of the frame dropper against the same controller without it: for which configurations the two
 drop the same frames of every run.
 */
module FastPath {
  import opened Common
  import opened FrameDropper

  // ---------------------------------------------------------------------------------------------
  // The controller with and without the fast path
  // ---------------------------------------------------------------------------------------------

  function DecideIn(fast: bool, config: Config, c: Control, now: int): (Control, Decision) {
    if fast then Decide(config, c, now) else FullDecide(config, c, now)
  }

  function StepIn(fast: bool, config: Config, c: Control, event: Event): Control {
    match event
    case Frame(now) => DecideIn(fast, config, c, now).0
    case Feedback(stats) => Updated(config, c, stats)
  }

  function RunIn(fast: bool, config: Config, c: Control, events: seq<Event>): Control {
    if events == [] then c
    else StepIn(fast, config, RunIn(fast, config, c, events[..|events| - 1]), events[|events| - 1])
  }

  /** The decision to drop, frame by frame. */
  function DropsIn(fast: bool, config: Config, c: Control, events: seq<Event>): seq<bool> {
    if events == [] then []
    else
      var before, last := events[..|events| - 1], events[|events| - 1];
      if last.Frame? then
        DropsIn(fast, config, c, before) + [DecideIn(fast, config, RunIn(fast, config, c, before), last.now).1.drop]
      else DropsIn(fast, config, c, before)
  }

  /** The controller with the fast path is the one of the code. */
  lemma {:induction false} FastRunIsRun(config: Config, events: seq<Event>)
    ensures RunIn(true, config, INITIAL, events) == Run(config, events)
  {
    if events != [] {
      FastRunIsRun(config, events[..|events| - 1]);
    }
  }

  /** Measured statistics: loss is a share, and a round-trip time is not negative. */
  predicate Sane(stats: Stats) {
    stats.rttMs >= 0.0 && 0.0 <= stats.packetLoss <= 1.0
  }

  predicate SaneEvent(event: Event) {
    match event
    case Frame(now) => now >= 0
    case Feedback(stats) => Sane(stats)
  }

  /** Sane statistics, and a clock that does not go backwards. */
  ghost predicate Proper(events: seq<Event>) {
    && (forall i :: 0 <= i < |events| ==> SaneEvent(events[i]))
    && forall i, j :: 0 <= i < j < |events| && events[i].Frame? && events[j].Frame? ==> events[i].now <= events[j].now
  }

  ghost predicate AgreeOn(config: Config, events: seq<Event>) {
    DropsIn(true, config, INITIAL, events) == DropsIn(false, config, INITIAL, events)
  }

  ghost predicate FastPathAgrees(config: Config) {
    forall events :: Proper(events) ==> AgreeOn(config, events)
  }

  // ---------------------------------------------------------------------------------------------
  // The condition
  // ---------------------------------------------------------------------------------------------

  /** The statistics before the first feedback: the best there are. */
  const QUIET := Stats(0.0, 0.0, 0)

  /** The conditions that occur when a quiet network is good or excellent, by the thresholds. */
  predicate CanOccur(config: Config, condition: Condition) {
    match condition
    case Excellent => Assess(config, QUIET) == Excellent
    case Good =>
      || Assess(config, QUIET) == Good
      || (config.rtt.excellent < config.rtt.fair && config.rtt.excellent < config.rtt.poor)
      || (config.loss.excellent < config.loss.fair && config.loss.excellent < config.loss.poor &&
          config.loss.excellent < 1.0)
      || config.queue.excellent + 1 < Min(config.queue.fair, config.queue.poor)
    case Fair =>
      || config.rtt.fair < config.rtt.poor
      || (config.loss.fair < config.loss.poor && config.loss.fair <= 1.0)
      || config.queue.fair < config.queue.poor
    case Poor => true
    case Critical => config.loss.poor <= 1.0
  }

  ghost predicate Occurs(config: Config, condition: Condition) {
    exists stats :: Sane(stats) && Assess(config, stats) == condition
  }

  /** What the ratio of a condition has to be: nothing is dropped on a good network, and on a bad one nothing or
      everything, so that the accumulator never keeps a rest. */
  predicate LeavesNoRest(config: Config, condition: Condition) {
    if DropPossible(condition) then Ratio(config, condition) in {0.0, 1.0} else Ratio(config, condition) == 0.0
  }

  /** The configurations without the fast path, and those to which it makes no difference. */
  predicate Harmless(config: Config) {
    || config.minFrameIntervalMs > 0
    || (Ratio(config, Assess(config, QUIET)) == 0.0 &&
        (DropPossible(Assess(config, QUIET)) ||
         forall condition :: CanOccur(config, condition) ==> LeavesNoRest(config, condition)))
  }

  function Middle(a: real, b: real): real {
    (a + b) / 2.0
  }

  function AtLeastZero(a: real): real {
    if a < 0.0 then 0.0 else a
  }

  function Least(a: real, b: real): real {
    if a < b then a else b
  }

  /** Statistics with a condition that can occur. */
  function Example(config: Config, condition: Condition): Stats {
    match condition
    case Excellent => QUIET
    case Good =>
      if Assess(config, QUIET) == Good then QUIET
      else if config.rtt.excellent < config.rtt.fair && config.rtt.excellent < config.rtt.poor then
        Stats(Middle(AtLeastZero(config.rtt.excellent), Least(config.rtt.fair, config.rtt.poor)), 0.0, 0)
      else if config.loss.excellent < config.loss.fair && config.loss.excellent < config.loss.poor &&
              config.loss.excellent < 1.0 then
        Stats(0.0, Middle(AtLeastZero(config.loss.excellent), Least(1.0, Least(config.loss.fair, config.loss.poor))), 0)
      else Stats(0.0, 0.0, config.queue.excellent + 1)
    case Fair =>
      if config.rtt.fair < config.rtt.poor then Stats(AtLeastZero(config.rtt.fair), 0.0, 0)
      else if config.loss.fair < config.loss.poor && config.loss.fair <= 1.0 then
        Stats(0.0, AtLeastZero(config.loss.fair), 0)
      else Stats(0.0, 0.0, config.queue.fair)
    case Poor => Stats(AtLeastZero(config.rtt.poor), 0.0, 0)
    case Critical => Stats(AtLeastZero(config.rtt.poor), AtLeastZero(config.loss.poor), config.queue.poor)
  }

  lemma OccursIff(config: Config, condition: Condition)
    requires !DropPossible(Assess(config, QUIET))
    ensures Occurs(config, condition) <==> CanOccur(config, condition)
    ensures CanOccur(config, condition) ==>
              Sane(Example(config, condition)) && Assess(config, Example(config, condition)) == condition
  {
    if Occurs(config, condition) {
      var stats :| Sane(stats) && Assess(config, stats) == condition;
      OccurringCanOccur(config, stats);
    }
    if CanOccur(config, condition) {
      ExampleOccurs(config, condition);
    }
  }

  lemma OccurringCanOccur(config: Config, stats: Stats)
    requires !DropPossible(Assess(config, QUIET)) && Sane(stats)
    ensures CanOccur(config, Assess(config, stats))
  {
  }

  lemma ExampleOccurs(config: Config, condition: Condition)
    requires !DropPossible(Assess(config, QUIET)) && CanOccur(config, condition)
    ensures Sane(Example(config, condition)) && Assess(config, Example(config, condition)) == condition
  {
  }

  // ---------------------------------------------------------------------------------------------
  // Agreement
  // ---------------------------------------------------------------------------------------------

  /** With a minimum interval the fast path is never taken. */
  lemma {:induction false} SameWithInterval(config: Config, events: seq<Event>)
    requires config.minFrameIntervalMs > 0
    ensures RunIn(true, config, INITIAL, events) == RunIn(false, config, INITIAL, events)
    ensures AgreeOn(config, events)
  {
    if events != [] {
      SameWithInterval(config, events[..|events| - 1]);
    }
  }

  /** Both controllers at time t: the same statistics and accumulator, and where the fast path is open, nothing to
      drop and nothing kept. */
  predicate Alike(config: Config, f: Control, s: Control, t: int) {
    && f.stats == s.stats && f.dropMayBeNeeded == s.dropMayBeNeeded && Sane(f.stats)
    && f.dropping.accumulator == s.dropping.accumulator
    && f.dropping.lastFrameTime <= t && s.dropping.lastFrameTime <= t
    && (f.dropMayBeNeeded ==> DropPossible(Assess(config, f.stats)))
    && (!f.dropMayBeNeeded ==> f.dropping.accumulator == 0.0 && Ratio(config, Assess(config, f.stats)) == 0.0)
    && (!DropPossible(Assess(config, QUIET)) ==> f.dropping.accumulator == 0.0)
  }

  lemma FeedbackKeepsAlike(config: Config, f: Control, s: Control, t: int, stats: Stats)
    requires Harmless(config) && config.minFrameIntervalMs == 0 && Alike(config, f, s, t) && Sane(stats)
    ensures Alike(config, Updated(config, f, stats), Updated(config, s, stats), t)
  {
    WorseNetworkIsNoBetter(config, QUIET, stats);
    if !DropPossible(Assess(config, QUIET)) {
      OccurringCanOccur(config, stats);
      assert LeavesNoRest(config, Assess(config, stats));
    }
  }

  lemma FrameKeepsAlike(config: Config, f: Control, s: Control, t: int, now: int)
    requires Harmless(config) && config.minFrameIntervalMs == 0 && Alike(config, f, s, t) && t <= now
    ensures Alike(config, DecideIn(true, config, f, now).0, DecideIn(false, config, s, now).0, now)
    ensures DecideIn(true, config, f, now).1.drop == DecideIn(false, config, s, now).1.drop
  {
    if f.dropMayBeNeeded && !DropPossible(Assess(config, QUIET)) {
      OccurringCanOccur(config, f.stats);
      assert LeavesNoRest(config, Assess(config, f.stats));
    }
  }

  /** The time of the last frame. */
  function LastTime(events: seq<Event>): int {
    if events == [] then 0
    else if events[|events| - 1].Frame? then events[|events| - 1].now
    else LastTime(events[..|events| - 1])
  }

  lemma {:induction false} LastTimeIsLatest(events: seq<Event>, event: Event)
    requires Proper(events + [event]) && event.Frame?
    ensures LastTime(events) <= event.now
  {
    var all := events + [event];
    assert all[|events|] == event && SaneEvent(all[|events|]);
    if events != [] {
      var before, last := events[..|events| - 1], events[|events| - 1];
      if last.Frame? {
        assert all[|events| - 1] == last;
      } else {
        assert all == before + [last] + [event];
        ProperWithout(before, last, event);
        LastTimeIsLatest(before, event);
      }
    }
  }

  lemma ProperWithout(before: seq<Event>, last: Event, event: Event)
    requires Proper(before + [last] + [event])
    ensures Proper(before + [event])
  {
    var all, fewer := before + [last] + [event], before + [event];
    forall i | 0 <= i < |fewer|
      ensures SaneEvent(fewer[i])
    {
      assert fewer[i] == all[if i < |before| then i else i + 1];
    }
    forall i, j | 0 <= i < j < |fewer| && fewer[i].Frame? && fewer[j].Frame?
      ensures fewer[i].now <= fewer[j].now
    {
      assert fewer[i] == all[i] && fewer[j] == all[if j < |before| then j else j + 1];
    }
  }

  lemma ProperPrefix(events: seq<Event>, n: nat)
    requires Proper(events) && n <= |events|
    ensures Proper(events[..n])
  {
  }

  lemma {:induction false} HarmlessAgrees(config: Config, events: seq<Event>)
    requires Harmless(config) && config.minFrameIntervalMs == 0 && Proper(events)
    ensures AgreeOn(config, events)
    ensures Alike(config, RunIn(true, config, INITIAL, events), RunIn(false, config, INITIAL, events), LastTime(events))
  {
    if events != [] {
      var before, last := events[..|events| - 1], events[|events| - 1];
      var f, s := RunIn(true, config, INITIAL, before), RunIn(false, config, INITIAL, before);
      ProperPrefix(events, |events| - 1);
      HarmlessAgrees(config, before);
      assert SaneEvent(last);
      match last {
        case Feedback(stats) => FeedbackKeepsAlike(config, f, s, LastTime(before), stats);
        case Frame(now) =>
          assert before + [last] == events;
          LastTimeIsLatest(before, last);
          FrameKeepsAlike(config, f, s, LastTime(before), now);
      }
    }
  }

  // ---------------------------------------------------------------------------------------------
  // Disagreement
  // ---------------------------------------------------------------------------------------------

  lemma {:induction false} RunInConcat(fast: bool, config: Config, c: Control, a: seq<Event>, b: seq<Event>)
    ensures RunIn(fast, config, c, a + b) == RunIn(fast, config, RunIn(fast, config, c, a), b)
  {
    if b == [] {
      assert a + b == a;
    } else {
      RunInConcat(fast, config, c, a, b[..|b| - 1]);
      assert (a + b)[..|a + b| - 1] == a + b[..|b| - 1];
    }
  }

  /** Frames at one time. */
  function Frames(k: nat): (frames: seq<Event>)
    ensures |frames| == k && forall i :: 0 <= i < k ==> frames[i] == Frame(0)
  {
    seq(k, _ => Frame(0))
  }

  /** Frames while the fast path is closed feed the accumulator. */
  lemma {:induction false} FramesAccumulate(fast: bool, config: Config, c: Control, k: nat)
    requires config.minFrameIntervalMs == 0 && c.dropping.lastFrameTime == 0 && !(fast && FastPath(config, c))
    ensures var r := RunIn(fast, config, c, Frames(k));
            && r.dropping.accumulator
               == AccumulateAll(c.dropping.accumulator, Repeat(Ratio(config, Assess(config, c.stats)), k)).0
            && r.stats == c.stats && r.dropMayBeNeeded == c.dropMayBeNeeded && r.dropping.lastFrameTime == 0
  {
    if k > 0 {
      FramesAccumulate(fast, config, c, k - 1);
      assert Frames(k)[..k - 1] == Frames(k - 1);
      var ratio := Ratio(config, Assess(config, c.stats));
      assert Repeat(ratio, k)[..k - 1] == Repeat(ratio, k - 1);
    }
  }

  /** Frames while it is open change nothing. */
  lemma {:induction false} FramesPass(config: Config, c: Control, k: nat)
    requires FastPath(config, c)
    ensures RunIn(true, config, c, Frames(k)) == c
  {
    if k > 0 {
      FramesPass(config, c, k - 1);
      assert Frames(k)[..k - 1] == Frames(k - 1);
    }
  }

  /** Which of the frames at one ratio is the first to be dropped. */
  lemma FirstDrop(accumulator: real, ratio: real, k: nat)
    requires Fraction(accumulator) && 0.0 < ratio <= 1.0 && k < UntilNext(accumulator, ratio)
    ensures Accumulate(AccumulateAll(accumulator, Repeat(ratio, k)).0, ratio).1
            <==> k + 1 == UntilNext(accumulator, ratio)
  {
    UntilNextIsExact(accumulator, ratio, k);
    UntilNextIsExact(accumulator, ratio, k + 1);
    assert Repeat(ratio, k + 1)[..k] == Repeat(ratio, k);
  }

  /** The decision on the frame after k frames with the fast path closed. */
  lemma DropAfterFrames(fast: bool, config: Config, c: Control, k: nat)
    requires config.minFrameIntervalMs == 0 && c.dropping.lastFrameTime == 0 && !(fast && FastPath(config, c))
    requires Fraction(c.dropping.accumulator) && 0.0 < Ratio(config, Assess(config, c.stats)) <= 1.0
    requires k < UntilNext(c.dropping.accumulator, Ratio(config, Assess(config, c.stats)))
    ensures DecideIn(fast, config, RunIn(fast, config, c, Frames(k)), 0).1.drop
            <==> k + 1 == UntilNext(c.dropping.accumulator, Ratio(config, Assess(config, c.stats)))
  {
    FramesAccumulate(fast, config, c, k);
    FirstDrop(c.dropping.accumulator, Ratio(config, Assess(config, c.stats)), k);
  }

  /** Different decisions on the last frame are different drops. */
  lemma LastDecisionTells(config: Config, events: seq<Event>)
    requires DecideIn(true, config, RunIn(true, config, INITIAL, events), 0).1.drop
             != DecideIn(false, config, RunIn(false, config, INITIAL, events), 0).1.drop
    ensures !AgreeOn(config, events + [Frame(0)])
  {
    var all := events + [Frame(0)];
    assert all[..|all| - 1] == events;
    var f, s := DropsIn(true, config, INITIAL, all), DropsIn(false, config, INITIAL, all);
    assert f[|f| - 1] != s[|s| - 1];
  }

  lemma ProperFrames(prefix: seq<Event>, k: nat)
    requires forall i :: 0 <= i < |prefix| ==> SaneEvent(prefix[i]) && (prefix[i].Frame? ==> prefix[i].now == 0)
    ensures Proper(prefix + Frames(k) + [Frame(0)])
  {
  }

  /** A good network with a drop ratio: the fast path lets every frame pass, and the controller behind it would drop
      one. */
  lemma WithheldDrop(config: Config, prefix: seq<Event>, c: Control) returns (events: seq<Event>)
    requires config.minFrameIntervalMs == 0 && Ratio(config, Assess(config, c.stats)) > 0.0
    requires RunIn(true, config, INITIAL, prefix) == RunIn(false, config, INITIAL, prefix) == c
    requires c.dropping.lastFrameTime == 0 && c.dropping.accumulator == 0.0 && !c.dropMayBeNeeded
    requires forall i :: 0 <= i < |prefix| ==> SaneEvent(prefix[i]) && (prefix[i].Frame? ==> prefix[i].now == 0)
    ensures Proper(events) && !AgreeOn(config, events)
  {
    var ratio := Ratio(config, Assess(config, c.stats));
    UntilNextIsExact(0.0, ratio, 0);
    var k := UntilNext(0.0, ratio) - 1;
    RunInConcat(true, config, INITIAL, prefix, Frames(k));
    RunInConcat(false, config, INITIAL, prefix, Frames(k));
    FramesPass(config, c, k);
    DropAfterFrames(false, config, c, k);
    LastDecisionTells(config, prefix + Frames(k));
    ProperFrames(prefix, k);
    events := prefix + Frames(k) + [Frame(0)];
  }

  lemma RunInOne(fast: bool, config: Config, c: Control, event: Event)
    ensures RunIn(fast, config, c, [event]) == StepIn(fast, config, c, event)
  {
    assert [event][..0] == [];
  }

  /** A frame on a bad network, a good network for one frame, and the bad network again. */
  function Interlude(bad: Stats): seq<Event> {
    [Feedback(bad)] + [Frame(0)] + [Feedback(QUIET)] + [Frame(0)] + [Feedback(bad)]
  }

  /** The fast path keeps the rest of the bad network through the good one; behind it the rest would be dropped. */
  lemma InterludeKeepsRest(fast: bool, config: Config, bad: Stats)
    requires config.minFrameIntervalMs == 0
    requires DropPossible(Assess(config, bad)) && 0.0 < Ratio(config, Assess(config, bad)) < 1.0
    requires !DropPossible(Assess(config, QUIET)) && Ratio(config, Assess(config, QUIET)) == 0.0
    ensures var c := RunIn(fast, config, INITIAL, Interlude(bad));
            && c.stats == bad && c.dropMayBeNeeded && c.dropping.lastFrameTime == 0
            && c.dropping.accumulator == if fast then Ratio(config, Assess(config, bad)) else 0.0
  {
    RunInOne(fast, config, INITIAL, Feedback(bad));
    var c1 := StepIn(fast, config, INITIAL, Feedback(bad));
    RunInConcat(fast, config, INITIAL, [Feedback(bad)], [Frame(0)]);
    RunInOne(fast, config, c1, Frame(0));
    var c2 := StepIn(fast, config, c1, Frame(0));
    RunInConcat(fast, config, INITIAL, [Feedback(bad)] + [Frame(0)], [Feedback(QUIET)]);
    RunInOne(fast, config, c2, Feedback(QUIET));
    var c3 := StepIn(fast, config, c2, Feedback(QUIET));
    RunInConcat(fast, config, INITIAL, [Feedback(bad)] + [Frame(0)] + [Feedback(QUIET)], [Frame(0)]);
    RunInOne(fast, config, c3, Frame(0));
    var c4 := StepIn(fast, config, c3, Frame(0));
    RunInConcat(fast, config, INITIAL, [Feedback(bad)] + [Frame(0)] + [Feedback(QUIET)] + [Frame(0)], [Feedback(bad)]);
    RunInOne(fast, config, c4, Feedback(bad));
  }

  /** A rest of one ratio brings the next drop one frame earlier. */
  lemma OneRatioEarlier(ratio: real)
    requires 0.0 < ratio < 1.0
    ensures UntilNext(ratio, ratio) == UntilNext(0.0, ratio) - 1 >= 1
  {
    assert (1.0 - ratio) / ratio == 1.0 / ratio - 1.0;
    UntilNextIsExact(ratio, ratio, 0);
  }

  /** A bad network with a proper share: after the interlude the two controllers drop different frames. */
  lemma MisplacedDrop(config: Config, bad: Stats) returns (events: seq<Event>)
    requires config.minFrameIntervalMs == 0 && Sane(bad)
    requires DropPossible(Assess(config, bad)) && 0.0 < Ratio(config, Assess(config, bad)) < 1.0
    requires !DropPossible(Assess(config, QUIET)) && Ratio(config, Assess(config, QUIET)) == 0.0
    ensures Proper(events) && !AgreeOn(config, events)
    ensures var ratio := Ratio(config, Assess(config, bad));
            UntilNext(ratio, ratio) >= 1 && events == Interlude(bad) + Frames(UntilNext(ratio, ratio) - 1) + [Frame(0)]
  {
    var ratio := Ratio(config, Assess(config, bad));
    var prefix := Interlude(bad);
    OneRatioEarlier(ratio);
    var k := UntilNext(ratio, ratio) - 1;
    InterludeKeepsRest(true, config, bad);
    InterludeKeepsRest(false, config, bad);
    RunInConcat(true, config, INITIAL, prefix, Frames(k));
    RunInConcat(false, config, INITIAL, prefix, Frames(k));
    DropAfterFrames(true, config, RunIn(true, config, INITIAL, prefix), k);
    DropAfterFrames(false, config, RunIn(false, config, INITIAL, prefix), k);
    LastDecisionTells(config, prefix + Frames(k));
    ProperFrames(prefix, k);
    events := prefix + Frames(k) + [Frame(0)];
  }

  lemma HarmfulDisagrees(config: Config) returns (events: seq<Event>)
    requires !Harmless(config)
    ensures Proper(events) && !AgreeOn(config, events)
  {
    if Ratio(config, Assess(config, QUIET)) != 0.0 {
      events := WithheldDrop(config, [], INITIAL);
    } else {
      var condition :| CanOccur(config, condition) && !LeavesNoRest(config, condition);
      var stats := Example(config, condition);
      ExampleOccurs(config, condition);
      if DropPossible(condition) {
        events := MisplacedDrop(config, stats);
      } else {
        RunInOne(true, config, INITIAL, Feedback(stats));
        RunInOne(false, config, INITIAL, Feedback(stats));
        events := WithheldDrop(config, [Feedback(stats)], Updated(config, INITIAL, stats));
      }
    }
  }

  /** The fast path drops the same frames as the controller behind it, in all runs, exactly for the harmless
      configurations. */
  lemma FastPathAgreesIff(config: Config)
    ensures FastPathAgrees(config) <==> Harmless(config)
  {
    if Harmless(config) {
      forall events | Proper(events)
        ensures AgreeOn(config, events)
      {
        if config.minFrameIntervalMs > 0 {
          SameWithInterval(config, events);
        } else {
          HarmlessAgrees(config, events);
        }
      }
    } else {
      var _ := HarmfulDisagrees(config);
    }
  }

  /** The configuration that the host ships with. */
  const SHIPPED := Config(Levels(10.0, 50.0, 100.0, 200.0), Levels(0.01, 0.05, 0.10, 0.20), Levels(1, 3, 6, 12),
                          Ratios(0.0, 0.0, 0.1, 0.25, 0.5), true, 0)

  /** A network that is fair by its round-trip time. */
  const FAIR := Stats(100.0, 0.0, 0)

  /** It drops nothing on a good network, and yet its fast path misplaces drops: after a fair frame and a quiet one,
      the ninth fair frame is dropped, which the controller behind the fast path lets pass. */
  lemma ShippedFastPathMisplacesDrops()
    ensures Ratio(SHIPPED, Excellent) == 0.0 && Ratio(SHIPPED, Good) == 0.0 && Ratio(SHIPPED, Fair) == 0.1
    ensures var events := Interlude(FAIR) + Frames(8) + [Frame(0)];
            Proper(events) && !AgreeOn(SHIPPED, events)
    ensures !FastPathAgrees(SHIPPED)
  {
    assert (1.0 - 0.1) / 0.1 == 9.0;
    assert UntilNext(0.1, 0.1) == 9;
    var events := MisplacedDrop(SHIPPED, FAIR);
    assert events == Interlude(FAIR) + Frames(8) + [Frame(0)];
  }
}
