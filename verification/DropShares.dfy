/**
 How much the frame dropper drops: which share of the frames on a steady network, by thresholds and configured
 ratios, and when exactly a single frame is dropped.
 */
module DropShares {
  import opened FrameDropper

  // ---------------------------------------------------------------------------------------------
  // Conditions and shares
  // ---------------------------------------------------------------------------------------------

  /** Some measure has reached its threshold. */
  predicate Some(stats: Stats, rtt: real, loss: real, queue: nat) {
    stats.rttMs >= rtt || stats.packetLoss >= loss || stats.pacerQueueLength >= queue
  }

  predicate All(stats: Stats, rtt: real, loss: real, queue: nat) {
    stats.rttMs >= rtt && stats.packetLoss >= loss && stats.pacerQueueLength >= queue
  }

  predicate Calm(config: Config, stats: Stats) {
    && stats.rttMs <= config.rtt.excellent && stats.packetLoss <= config.loss.excellent
    && stats.pacerQueueLength <= config.queue.excellent
  }

  /** The network shows a condition: critical when all measures are poor, poor when some is, fair when some is fair, and
      excellent when none exceeds its best threshold. */
  predicate Shows(config: Config, stats: Stats, condition: Condition) {
    var poor := Some(stats, config.rtt.poor, config.loss.poor, config.queue.poor);
    var fair := Some(stats, config.rtt.fair, config.loss.fair, config.queue.fair);
    var allPoor := All(stats, config.rtt.poor, config.loss.poor, config.queue.poor);
    match condition
    case Critical => allPoor
    case Poor => poor && !allPoor
    case Fair => fair && !poor
    case Good => !fair && !poor && !Calm(config, stats)
    case Excellent => !fair && !poor && Calm(config, stats)
  }

  lemma ShowsWhatIsAssessed(config: Config, stats: Stats, condition: Condition)
    ensures Shows(config, stats, condition) <==> Assess(config, stats) == condition
  {
  }

  function Configured(ratios: Ratios, condition: Condition): real {
    match condition
    case Critical => ratios.critical
    case Poor => ratios.poor
    case Fair => ratios.fair
    case Good => ratios.good
    case Excellent => ratios.excellent
  }

  /** The share to drop: as configured but never more than all frames or less than none, and nothing without adaptive
      dropping unless the network is critical. */
  predicate IsShare(config: Config, condition: Condition, share: real) {
    var configured := Configured(config.ratios, condition);
    if config.enableAdaptiveDropping || condition == Critical then
      && 0.0 <= share <= 1.0
      && (0.0 <= configured <= 1.0 ==> share == configured)
      && (configured < 0.0 ==> share == 0.0) && (configured > 1.0 ==> share == 1.0)
    else share == 0.0
  }

  lemma ShareIsRatio(config: Config, condition: Condition, share: real)
    ensures IsShare(config, condition, share) <==> Ratio(config, condition) == share
  {
  }

  predicate Bad(condition: Condition) {
    condition == Fair || condition == Poor || condition == Critical
  }

  // ---------------------------------------------------------------------------------------------
  // One frame
  // ---------------------------------------------------------------------------------------------

  /** The statistics of the last feedback, or those before any. */
  function LastStats(events: seq<Event>): Stats {
    if events == [] then Stats(0.0, 0.0, 0)
    else if events[|events| - 1].Feedback? then events[|events| - 1].stats
    else LastStats(events[..|events| - 1])
  }

  predicate HasFeedback(events: seq<Event>) {
    exists i :: 0 <= i < |events| && events[i].Feedback?
  }

  /** The controller looks at single frames: there is an interval to keep, or the network was last reported bad. */
  predicate Watches(config: Config, events: seq<Event>) {
    || config.minFrameIntervalMs > 0
    || (HasFeedback(events) && exists condition :: Bad(condition) && Shows(config, LastStats(events), condition))
  }

  /** The time of the last frame that was accepted while the controller looked, or 0. */
  function LastAccepted(config: Config, events: seq<Event>): int {
    if events == [] then 0
    else
      var before, last := events[..|events| - 1], events[|events| - 1];
      if last.Frame? && Watches(config, before) && !Decide(config, Run(config, before), last.now).1.drop then last.now
      else LastAccepted(config, before)
  }

  lemma FeedbackGrows(before: seq<Event>, last: Event)
    ensures HasFeedback(before + [last]) <==> HasFeedback(before) || last.Feedback?
  {
    var events := before + [last];
    assert events[|before|] == last;
    if HasFeedback(before) {
      var i :| 0 <= i < |before| && before[i].Feedback?;
      assert events[i].Feedback?;
    }
  }

  lemma WatchesBehindFastPath(config: Config, events: seq<Event>)
    requires Run(config, events).dropMayBeNeeded
             == (HasFeedback(events) && DropPossible(Assess(config, LastStats(events))))
    ensures Watches(config, events) <==> !FastPath(config, Run(config, events))
  {
    ShowsWhatIsAssessed(config, LastStats(events), Assess(config, LastStats(events)));
    forall condition
      ensures Shows(config, LastStats(events), condition) <==> Assess(config, LastStats(events)) == condition
    {
      ShowsWhatIsAssessed(config, LastStats(events), condition);
    }
  }

  lemma {:induction false} RunKnows(config: Config, events: seq<Event>)
    ensures var c := Run(config, events);
            && c.stats == LastStats(events) && c.dropping.lastFrameTime == LastAccepted(config, events)
            && c.dropMayBeNeeded == (HasFeedback(events) && DropPossible(Assess(config, LastStats(events))))
  {
    if events != [] {
      var before, last := events[..|events| - 1], events[|events| - 1];
      RunKnows(config, before);
      FeedbackGrows(before, last);
      assert events == before + [last];
      WatchesBehindFastPath(config, before);
    }
  }

  /** Less than the interval after the last accepted frame. Without an interval only a clock that went back by a
      millisecond counts. */
  predicate Hurries(elapsed: int, intervalMs: nat) {
    if intervalMs == 0 then elapsed <= -1_000_000 else elapsed < intervalMs * 1_000_000
  }

  /** In every state of every run: a frame is dropped exactly if the controller looks at it, and it hurries or its share
      takes the accumulator to a whole frame. */
  lemma FrameIsDroppedIff(config: Config, events: seq<Event>, now: int, condition: Condition, share: real)
    requires Shows(config, LastStats(events), condition) && IsShare(config, condition, share)
    ensures Decide(config, Run(config, events), now).1.drop
            <==> && Watches(config, events)
                 && (|| Hurries(now - LastAccepted(config, events), config.minFrameIntervalMs)
                     || (share > 0.0 && Run(config, events).dropping.accumulator + share >= 1.0))
  {
    RunKnows(config, events);
    WatchesBehindFastPath(config, events);
    ShowsWhatIsAssessed(config, LastStats(events), condition);
    ShareIsRatio(config, condition, share);
    HurriesIsTooSoon(config, Run(config, events).dropping, now);
  }

  /** The least number of further shares that make the accumulator whole. */
  predicate IsNextDrop(n: int, accumulator: real, share: real) {
    (n - 1) as real * share < 1.0 - accumulator <= n as real * share
  }

  lemma UntilNextIsLeast(accumulator: real, share: real)
    requires share > 0.0
    ensures IsNextDrop(UntilNext(accumulator, share), accumulator, share)
  {
    var n, x := UntilNext(accumulator, share), 1.0 - accumulator;
    assert n as real >= x / share > (n - 1) as real;
    TimesRatio(n, x, share);
    TimesRatio(n - 1, x, share);
  }

  /** What the decision tells: nothing on a frame that the controller does not look at; one more frame to wait for a
      frame that hurries; and else the condition and its share, with a drop the number of further frames until the
      next one. */
  lemma DecisionTellsWhy(config: Config, events: seq<Event>, now: int, condition: Condition, share: real)
    requires Shows(config, LastStats(events), condition) && IsShare(config, condition, share)
    ensures var c := Run(config, events);
            var (next, decision) := Decide(config, c, now);
            if !Watches(config, events) then decision == Decision(false, Excellent, 0.0, 0) && next == c
            else if Hurries(now - LastAccepted(config, events), config.minFrameIntervalMs) then
              decision == Decision(true, Excellent, 0.0, 1)
            else
              && decision.condition == condition && decision.ratio == share
              && if decision.drop then
                   share > 0.0 && IsNextDrop(decision.framesUntilNext, next.dropping.accumulator, share)
                 else decision.framesUntilNext == 0
  {
    RunKnows(config, events);
    WatchesBehindFastPath(config, events);
    ShowsWhatIsAssessed(config, LastStats(events), condition);
    ShareIsRatio(config, condition, share);
    HurriesIsTooSoon(config, Run(config, events).dropping, now);
    if share > 0.0 {
      UntilNextIsLeast(Accumulate(Run(config, events).dropping.accumulator, share).0, share);
    }
  }

  lemma HurriesIsTooSoon(config: Config, d: Dropping, now: int)
    ensures TooSoon(config, d, now) <==> Hurries(now - d.lastFrameTime, config.minFrameIntervalMs)
  {
  }

  // ---------------------------------------------------------------------------------------------
  // A steady network
  // ---------------------------------------------------------------------------------------------

  /** One report on the network, and frames at the given times. */
  function Steadily(stats: Stats, times: seq<int>): (events: seq<Event>)
    ensures |events| == |times| + 1
  {
    [Feedback(stats)] + seq(|times|, i requires 0 <= i < |times| => Frame(times[i]))
  }

  /** The frames come at least the interval apart. */
  ghost predicate Spaced(config: Config, times: seq<int>) {
    var interval := config.minFrameIntervalMs * 1_000_000;
    && (times != [] ==> times[0] >= interval)
    && forall i, j :: 0 <= i < j < |times| ==> times[j] - times[i] >= interval
  }

  /** A frame that does not hurry. */
  lemma CalmFrameApplies(config: Config, events: seq<Event>, now: int)
    requires now - Run(config, events).dropping.lastFrameTime >= config.minFrameIntervalMs * 1_000_000
    ensures var c, after := Run(config, events), events + [Frame(now)];
            && Run(config, after).stats == c.stats && Run(config, after).dropMayBeNeeded == c.dropMayBeNeeded
            && Run(config, after).dropping.lastFrameTime in {now, c.dropping.lastFrameTime}
            && Hurried(config, after) == Hurried(config, events)
            && Applied(config, after)
               == Applied(config, events) + if FastPath(config, c) then [] else [Ratio(config, Assess(config, c.stats))]
  {
    var after := events + [Frame(now)];
    assert after[..|after| - 1] == events && after[|after| - 1] == Frame(now);
    HurriesIsTooSoon(config, Run(config, events).dropping, now);
  }

  lemma OneMoreRatio(ratio: real, count: nat)
    ensures Repeat(ratio, count) + [ratio] == Repeat(ratio, count + 1)
  {
  }

  lemma SteadilyOneMore(stats: Stats, times: seq<int>)
    requires times != []
    ensures Steadily(stats, times) == Steadily(stats, times[..|times| - 1]) + [Frame(times[|times| - 1])]
  {
  }

  /** The ratios that such frames feed to the accumulator, none of which hurries. */
  lemma {:induction false} SteadyApplies(config: Config, stats: Stats, times: seq<int>)
    requires Spaced(config, times)
    ensures var events, ratio := Steadily(stats, times), Ratio(config, Assess(config, stats));
            var c := Run(config, events);
            && c.stats == stats && c.dropMayBeNeeded == DropPossible(Assess(config, stats))
            && (c.dropping.lastFrameTime == 0 || c.dropping.lastFrameTime in times)
            && Hurried(config, events) == 0
            && Applied(config, events) == if FastPath(config, c) then [] else Repeat(ratio, |times|)
  {
    if times == [] {
      assert Steadily(stats, times)[..0] == [];
    } else {
      var before := times[..|times| - 1];
      SteadyApplies(config, stats, before);
      SteadilyOneMore(stats, times);
      CalmFrameApplies(config, Steadily(stats, before), times[|times| - 1]);
      OneMoreRatio(Ratio(config, Assess(config, stats)), |before|);
    }
  }

  lemma {:induction false} ZerosDropNothing(count: nat)
    ensures AccumulateAll(0.0, Repeat(0.0, count)) == (0.0, 0)
  {
    if count > 0 {
      ZerosDropNothing(count - 1);
      assert Repeat(0.0, count)[..count - 1] == Repeat(0.0, count - 1);
    }
  }

  /** The whole part of a share of the frames. */
  function WholePart(count: nat, share: real): int {
    (count as real * share).Floor
  }

  /** Of n frames on a steady network, spaced by the interval, the whole part of n times the share is dropped.
      Without an interval a network that is not bad drops nothing, whatever its share. */
  lemma SteadyNetworkDropsShare(config: Config, stats: Stats, times: seq<int>, condition: Condition, share: real)
    requires Shows(config, stats, condition) && IsShare(config, condition, share) && Spaced(config, times)
    ensures Run(config, Steadily(stats, times)).dropping.framesDropped
            == if Bad(condition) || config.minFrameIntervalMs > 0 then WholePart(|times|, share) else 0
  {
    ShowsWhatIsAssessed(config, stats, condition);
    ShareIsRatio(config, condition, share);
    SteadyApplies(config, stats, times);
    RunAccumulates(config, Steadily(stats, times));
    SharesMakeDrops(share, |times|);
  }

  lemma SharesMakeDrops(share: real, count: nat)
    requires 0.0 <= share <= 1.0
    ensures AccumulateAll(0.0, Repeat(share, count)).1 == WholePart(count, share)
  {
    if share > 0.0 {
      DropsAreWholePart(0.0, Repeat(share, count));
      SumOfRepeat(share, count);
    } else {
      ZerosDropNothing(count);
    }
  }
}
