/**
 Sample durations of the encoder: each surviving frame is sent with the time since the frame before it,
 so that frames dropped on the way do not shift the receiver's timeline.
 */
module SampleDurations {
  import opened Division
  import opened FramePacer

  /** Used while the codec has no frame rate, about 120 frames a second. */
  const FALLBACK_DURATION: int := 8333

  datatype Pacing = Pacing(lastTimestamp: int, smoothed: int)

  function NominalDuration(fpsNum: int, fpsDen: int): int {
    if fpsNum > 0 then 1_000_000 * (if fpsDen > 0 then fpsDen else 1) / fpsNum else FALLBACK_DURATION
  }

  /** Deltas of this size follow the capture clock. */
  predicate Plausible(delta: int) {
    500 < delta < 2_000_000
  }

  function Paced(p: Pacing, timestamp: int, nominal: int): (Pacing, int) {
    var remembered := if p.smoothed > 0 then p.smoothed else nominal;
    if timestamp <= 0 then (p, remembered)
    else
      var delta := timestamp - p.lastTimestamp;
      if p.lastTimestamp > 0 && Plausible(delta) then (Pacing(timestamp, delta), delta)
      else (Pacing(timestamp, p.smoothed), remembered)
  }

  /** The nominal duration is the frame time in whole microseconds; a denominator that is not positive counts as one. */
  lemma NominalIsFrameTime(fpsNum: int, fpsDen: int)
    ensures fpsNum > 0 ==>
              var d, denominator := NominalDuration(fpsNum, fpsDen), if fpsDen >= 1 then fpsDen else 1;
              d * fpsNum <= 1_000_000 * denominator < (d + 1) * fpsNum
    ensures fpsNum <= 0 ==> NominalDuration(fpsNum, fpsDen) == 8_333
  {
    if fpsNum > 0 {
      QuotientBounds(1_000_000 * (if fpsDen > 0 then fpsDen else 1), fpsNum);
    }
  }

  class SamplePacer {
    var lastCaptureTimestamp: int
    var smoothedDuration: int

    constructor ()
      ensures Value() == Pacing(0, 0)
    {
      lastCaptureTimestamp, smoothedDuration := 0, 0;
    }

    function Value(): Pacing
      reads this
    {
      Pacing(lastCaptureTimestamp, smoothedDuration)
    }

    method UpdatePacingFromTimestamp(timestamp: int, fpsNum: int, fpsDen: int) returns (duration: int)
      modifies this
      ensures (Value(), duration) == Paced(old(Value()), timestamp, NominalDuration(fpsNum, fpsDen))
    {
      if timestamp > 0 {
        var previous := lastCaptureTimestamp;
        lastCaptureTimestamp := timestamp;
        if previous > 0 {
          var delta := timestamp - previous;
          if delta > 500 && delta < 2_000_000 {
            smoothedDuration := delta;
            return delta;
          }
        }
      }
      return if smoothedDuration > 0 then smoothedDuration else NominalDuration(fpsNum, fpsDen);
    }
  }

  // ---------------------------------------------------------------------------------------------
  // The receiver's timeline
  // ---------------------------------------------------------------------------------------------

  function PacingAfter(p: Pacing, timestamps: seq<int>, nominal: int): Pacing {
    if timestamps == [] then p
    else
      var last := |timestamps| - 1;
      Paced(PacingAfter(p, timestamps[..last], nominal), timestamps[last], nominal).0
  }

  /** The duration sent with sample i. */
  function Duration(p: Pacing, timestamps: seq<int>, nominal: int, i: nat): int
    requires i < |timestamps|
  {
    Paced(PacingAfter(p, timestamps[..i], nominal), timestamps[i], nominal).1
  }

  /** The durations of samples 1 to n - 1 together. */
  function DurationsAfterFirst(p: Pacing, timestamps: seq<int>, nominal: int, n: nat): int
    requires n <= |timestamps|
  {
    if n <= 1 then 0
    else DurationsAfterFirst(p, timestamps, nominal, n - 1) + Duration(p, timestamps, nominal, n - 1)
  }

  ghost predicate PlausibleGaps(timestamps: seq<int>) {
    forall i {:trigger timestamps[i]} :: 0 < i < |timestamps| ==> Plausible(timestamps[i] - timestamps[i - 1])
  }

  lemma {:induction false} PacingRemembersLast(p: Pacing, timestamps: seq<int>, nominal: int)
    requires timestamps != [] && timestamps[|timestamps| - 1] > 0
    ensures PacingAfter(p, timestamps, nominal).lastTimestamp == timestamps[|timestamps| - 1]
  {
  }

  /** A sample without a timestamp changes nothing for those behind it. */
  lemma UnstampedSampleIsSkipped(p: Pacing, timestamps: seq<int>, unstamped: int, nominal: int)
    requires unstamped <= 0
    ensures PacingAfter(p, timestamps + [unstamped], nominal) == PacingAfter(p, timestamps, nominal)
  {
    assert (timestamps + [unstamped])[..|timestamps|] == timestamps;
  }

  ghost predicate AllPositive(timestamps: seq<int>) {
    forall i :: 0 <= i < |timestamps| ==> timestamps[i] > 0
  }

  /** What the pacer has seen of a run from the start. */
  lemma {:induction false} PacingRemembersDuration(timestamps: seq<int>, nominal: int)
    requires timestamps != [] && AllPositive(timestamps) && nominal > 0
    ensures var p := PacingAfter(Pacing(0, 0), timestamps, nominal);
            && p.lastTimestamp == timestamps[|timestamps| - 1] && p.smoothed >= 0
            && Duration(Pacing(0, 0), timestamps, nominal, |timestamps| - 1)
               == if p.smoothed > 0 then p.smoothed else nominal
  {
    if |timestamps| > 1 {
      PacingRemembersDuration(timestamps[..|timestamps| - 1], nominal);
    } else {
      assert timestamps[..0] == [];
    }
  }

  /** Over any run from the start: the first sample has the nominal duration, and each later one the time since the
      sample before it, if that is more than 500 us and less than 2 s, and else the duration of that sample. */
  lemma DurationIsGapOrRepeated(timestamps: seq<int>, nominal: int, i: nat)
    requires AllPositive(timestamps) && nominal > 0 && i < |timestamps|
    ensures var d := Duration(Pacing(0, 0), timestamps, nominal, i);
            if i == 0 then d == nominal
            else
              var gap := timestamps[i] - timestamps[i - 1];
              d == if 501 <= gap <= 1_999_999 then gap else Duration(Pacing(0, 0), timestamps, nominal, i - 1)
  {
    if i > 0 {
      PacingRemembersDuration(timestamps[..i], nominal);
      assert timestamps[..i][..i - 1] == timestamps[..i - 1];
    } else {
      assert timestamps[..0] == [];
    }
  }

  /** Whatever the pacer remembered before: the durations after the first add up to the time from the first sample to
      the last, with no rounding and no loss. */
  lemma {:induction false} DurationsAddUp(p: Pacing, timestamps: seq<int>, nominal: int, n: nat)
    requires 0 < n <= |timestamps| && timestamps[0] > 0 && PlausibleGaps(timestamps)
    ensures DurationsAfterFirst(p, timestamps, nominal, n) == timestamps[n - 1] - timestamps[0]
    ensures timestamps[n - 1] > 0
  {
    if n > 1 {
      DurationsAddUp(p, timestamps, nominal, n - 1);
      PacingRemembersLast(p, timestamps[..n - 1], nominal);
      assert Plausible(timestamps[n - 1] - timestamps[n - 2]);
    }
  }

  /** The stamps of the kept frames at the given positions. */
  ghost predicate Survivors(sources: seq<Source>, positions: seq<nat>) {
    && (forall k :: 0 <= k < |positions| ==> positions[k] < |sources| && Kept(sources, positions[k]))
    && (forall k, l :: 0 <= k < l < |positions| ==> positions[k] < positions[l])
  }

  function Stamps(sources: seq<Source>, positions: seq<nat>): seq<int>
    requires Survivors(sources, positions)
  {
    seq(|positions|, k requires 0 <= k < |positions| => Stamp(sources, positions[k]).value)
  }

  ghost predicate ShortGaps(stamps: seq<int>) {
    forall k {:trigger stamps[k]} :: 0 < k < |stamps| ==> stamps[k] - stamps[k - 1] < 2_000_000
  }

  /** From the source clock to the receiver: at a fixed rate of up to 1000 frames a second, whichever of the scheduled
      frames survive dropping, the receiver's timeline spans exactly the stamps, as long as no gap reaches 2 s. */
  lemma SurvivorsKeepTheTimeline(sources: seq<Source>, fps: int, positions: seq<nat>, p: Pacing, nominal: int)
    requires Positive(sources) && NonDecreasing(sources) && FixedRate(sources, fps) && Rate(fps) <= 1000
    requires Survivors(sources, positions)
    ensures var stamps := Stamps(sources, positions);
            stamps != [] && stamps[0] > 0 && ShortGaps(stamps) ==>
              DurationsAfterFirst(p, stamps, nominal, |stamps|) == stamps[|stamps| - 1] - stamps[0]
  {
    var stamps := Stamps(sources, positions);
    if stamps != [] && stamps[0] > 0 && ShortGaps(stamps) {
      forall k | 0 < k < |stamps|
        ensures Plausible(stamps[k] - stamps[k - 1])
      {
        StampsAdvance(sources, fps, positions[k - 1], positions[k]);
        MultiplyMonotone(Rate(fps), 1000, 10_000);
        QuotientAtLeast(TICKS, Rate(fps), 10_000);
      }
      DurationsAddUp(p, stamps, nominal, |stamps|);
    }
  }
}
