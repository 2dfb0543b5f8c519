/**
 The media timeline: the absolute frame schedule of the capture callback, which decides which source
 frames are kept and how they are stamped, and the sample durations that the encoder derives from the
 stamps of the frames that survive.
 */
module FramePacer {
  import opened Common
  import opened Division

  /** Clock ticks of 100 ns in a second. */
  const TICKS: int := 10_000_000

  /** The schedule: deadlines are ticks multiplied by the frame rate. */
  datatype Schedule = Schedule(fps: int, deadline: int)

  const UNSET := Schedule(0, 0)

  function Rate(targetFps: int): int {
    if targetFps > 1 then targetFps else 1
  }

  function SourceTime(source: int, steadyNowUs: nat): int {
    if source <= 0 then steadyNowUs * 10 else source
  }

  /** The schedule restarts at this frame. */
  predicate Resyncs(s: Schedule, fps: int, scaled: int) {
    s.fps != fps || s.deadline <= 0 || scaled + TICKS < s.deadline
  }

  /** The schedule after a source frame, and the presentation timestamp if the frame is kept. */
  function Selected(s: Schedule, targetFps: int, source: int, steadyNowUs: nat): (Schedule, Option<int>) {
    var fps := Rate(targetFps);
    var scaled := SourceTime(source, steadyNowUs) * fps;
    var synced := if Resyncs(s, fps, scaled) then Schedule(fps, scaled) else s;
    if scaled < synced.deadline then (synced, None)
    else
      var slotDeadline := synced.deadline + (scaled - synced.deadline) / TICKS * TICKS;
      (synced.(deadline := slotDeadline + TICKS), Some(slotDeadline / fps / 10))
  }

  class Pacer {
    var pacingFps: int
    var nextFrameDeadlineScaled: int

    constructor ()
      ensures Value() == UNSET
    {
      pacingFps, nextFrameDeadlineScaled := 0, 0;
    }

    function Value(): Schedule
      reads this
    {
      Schedule(pacingFps, nextFrameDeadlineScaled)
    }

    method SelectFrameForOutput(targetFps: int, sourceTimestamp: int, steadyNowUs: nat)
      returns (presentationTimestampUs: Option<int>)
      modifies this
      ensures (Value(), presentationTimestampUs) == Selected(old(Value()), targetFps, sourceTimestamp, steadyNowUs)
    {
      var fps := if targetFps > 1 then targetFps else 1;
      var source := if sourceTimestamp <= 0 then steadyNowUs * 10 else sourceTimestamp;
      var sourceScaled := source * fps;
      if pacingFps != fps || nextFrameDeadlineScaled <= 0 || sourceScaled + TICKS < nextFrameDeadlineScaled {
        pacingFps := fps;
        nextFrameDeadlineScaled := sourceScaled;
      }
      if sourceScaled < nextFrameDeadlineScaled {
        return None;
      }
      var elapsedSlots := (sourceScaled - nextFrameDeadlineScaled) / TICKS;
      var selectedDeadline := nextFrameDeadlineScaled + elapsedSlots * TICKS;
      nextFrameDeadlineScaled := selectedDeadline + TICKS;
      return Some(selectedDeadline / fps / 10);
    }
  }

  /** A positive source time is used as it is; without one the clock, in microseconds, stands for it. */
  lemma ClockStandsForSource(s: Schedule, targetFps: int, source: int, clock: nat, other: nat)
    ensures source > 0 ==> Selected(s, targetFps, source, clock) == Selected(s, targetFps, source, other)
    ensures source <= 0 && clock > 0 ==>
              Selected(s, targetFps, source, clock) == Selected(s, targetFps, 10 * clock, other)
  {
  }

  // ---------------------------------------------------------------------------------------------
  // Runs
  // ---------------------------------------------------------------------------------------------

  datatype Source = Source(time: int, targetFps: int)

  ghost predicate Positive(sources: seq<Source>) {
    forall i :: 0 <= i < |sources| ==> sources[i].time > 0
  }

  ghost predicate NonDecreasing(sources: seq<Source>) {
    forall i, j :: 0 <= i < j < |sources| ==> sources[i].time <= sources[j].time
  }

  ghost predicate FixedRate(sources: seq<Source>, fps: int) {
    forall i :: 0 <= i < |sources| ==> sources[i].targetFps == fps
  }

  /** The schedule after a run of positive source times, which never ask for the clock. */
  function ScheduleAfter(sources: seq<Source>): Schedule {
    if sources == [] then UNSET
    else
      var last := sources[|sources| - 1];
      Selected(ScheduleAfter(sources[..|sources| - 1]), last.targetFps, last.time, 0).0
  }

  /** The stamp of frame i, if it is kept. */
  function Stamp(sources: seq<Source>, i: nat): Option<int>
    requires i < |sources|
  {
    Selected(ScheduleAfter(sources[..i]), sources[i].targetFps, sources[i].time, 0).1
  }

  predicate Kept(sources: seq<Source>, i: nat)
    requires i < |sources|
  {
    Stamp(sources, i).Some?
  }

  // ---------------------------------------------------------------------------------------------
  // The slot rule
  // ---------------------------------------------------------------------------------------------

  /** The slot of a source time, counted from the first frame. */
  function Slot(sources: seq<Source>, i: nat): int
    requires i < |sources|
  {
    (sources[i].time - sources[0].time) * Rate(sources[0].targetFps) / TICKS
  }

  /** At a fixed rate the slot of a frame is the number of whole frame times since the first one; a rate below one
      frame a second counts as one. */
  lemma SlotIsElapsedFrames(sources: seq<Source>, fps: int, i: nat)
    requires FixedRate(sources, fps) && i < |sources|
    ensures var elapsed := sources[i].time - sources[0].time;
            var frames := elapsed * if fps >= 1 then fps else 1;
            Slot(sources, i) * 10_000_000 <= frames < (Slot(sources, i) + 1) * 10_000_000
  {
    var rate := if fps >= 1 then fps else 1;
    assert sources[i].time * rate - sources[0].time * rate == (sources[i].time - sources[0].time) * rate;
  }

  lemma SlotsAreOrdered(sources: seq<Source>, i: nat, j: nat)
    requires NonDecreasing(sources) && i <= j < |sources|
    ensures 0 <= Slot(sources, i) <= Slot(sources, j)
  {
    var fps := Rate(sources[0].targetFps);
    assert 0 <= (sources[i].time - sources[0].time) * fps;
    assert (sources[i].time - sources[0].time) * fps <= (sources[j].time - sources[0].time) * fps;
  }

  /** After each frame the next deadline is the start of the slot behind the frame's own. */
  lemma {:induction false} DeadlineBehindSlot(sources: seq<Source>, fps: int, n: nat)
    requires 0 < n <= |sources|
    requires Positive(sources) && NonDecreasing(sources) && FixedRate(sources, fps)
    ensures ScheduleAfter(sources[..n])
            == Schedule(Rate(fps), sources[0].time * Rate(fps) + (Slot(sources, n - 1) + 1) * TICKS)
  {
    assert sources[..n][..n - 1] == sources[..n - 1];
    assert sources[..n][n - 1] == sources[n - 1];
    FirstSelected(fps, sources[0]);
    if n == 1 {
      assert ScheduleAfter(sources[..0]) == UNSET;
    } else {
      DeadlineBehindSlot(sources, fps, n - 1);
      NextOfRun(sources, fps, n - 1);
    }
  }

  lemma StampWith(sources: seq<Source>, fps: int, i: nat, s: Schedule)
    requires i < |sources| && s == ScheduleAfter(sources[..i]) && sources[i].targetFps == fps
    ensures Stamp(sources, i) == Selected(s, fps, sources[i].time, 0).1
  {
  }

  /** What the schedule does with each frame. */
  lemma FrameBehindSlot(sources: seq<Source>, fps: int, i: nat)
    requires i < |sources|
    requires Positive(sources) && NonDecreasing(sources) && FixedRate(sources, fps)
    ensures i > 0 ==> !Resyncs(ScheduleAfter(sources[..i]), Rate(fps), sources[i].time * Rate(fps))
    ensures Stamp(sources, i)
            == if i == 0 || Slot(sources, i - 1) < Slot(sources, i) then
                 Some((sources[0].time * Rate(fps) + Slot(sources, i) * TICKS) / Rate(fps) / 10)
               else None
  {
    if i == 0 {
      assert ScheduleAfter(sources[..0]) == UNSET;
      FirstSelected(fps, sources[0]);
    } else {
      DeadlineBehindSlot(sources, fps, i);
      NextOfRun(sources, fps, i);
      StampWith(sources, fps, i, ScheduleAfter(sources[..i]));
    }
  }

  lemma FirstSelected(fps: int, source: Source)
    requires source.time > 0
    ensures source.time * Rate(fps) > 0
    ensures var start := source.time * Rate(fps);
            Selected(UNSET, fps, source.time, 0) == (Schedule(Rate(fps), start + TICKS), Some(start / Rate(fps) / 10))
  {
  }

  lemma SlotOfScaled(sources: seq<Source>, i: nat)
    requires i < |sources|
    ensures var rate := Rate(sources[0].targetFps);
            Slot(sources, i) == (sources[i].time * rate - sources[0].time * rate) / TICKS
  {
    var rate := Rate(sources[0].targetFps);
    assert sources[i].time * rate - sources[0].time * rate == (sources[i].time - sources[0].time) * rate;
  }

  /** One frame of a running schedule, in terms of slots. */
  lemma NextSelected(fps: int, start: int, source: Source, last: int, slot: int)
    requires start > 0 && source.time > 0 && source.targetFps == fps
    requires 0 <= last <= slot == (source.time * Rate(fps) - start) / TICKS
    ensures OnSlot(fps, start, source, last, slot)
  {
    NextSlot(Rate(fps), start, source.time * Rate(fps), last);
  }

  /** With the deadline behind slot `last`, a frame of slot `slot` is kept when its slot is later, and stamped with
      the start of its slot; the deadline is then behind its slot. */
  predicate OnSlot(fps: int, start: int, source: Source, last: int, slot: int) {
    var s := Schedule(Rate(fps), start + (last + 1) * TICKS);
    && !Resyncs(s, Rate(fps), source.time * Rate(fps))
    && Selected(s, fps, source.time, 0)
       == (Schedule(Rate(fps), start + (slot + 1) * TICKS),
           if last < slot then Some((start + slot * TICKS) / Rate(fps) / 10) else None)
  }

  lemma NextOfRun(sources: seq<Source>, fps: int, i: nat)
    requires 0 < i < |sources|
    requires Positive(sources) && NonDecreasing(sources) && FixedRate(sources, fps)
    ensures OnSlot(fps, sources[0].time * Rate(fps), sources[i], Slot(sources, i - 1), Slot(sources, i))
  {
    SlotsAreOrdered(sources, i - 1, i);
    SlotOfScaled(sources, i);
    MultiplyMonotone(1, sources[0].time, Rate(fps));
    NextSelected(fps, sources[0].time * Rate(fps), sources[i], Slot(sources, i - 1), Slot(sources, i));
  }

  /** One frame at fixed rate: with the deadline behind slot `last`, the frame is kept when its slot is later. */
  lemma NextSlot(rate: int, start: int, scaled: int, last: int)
    requires rate >= 1 && start > 0 && 0 <= last <= (scaled - start) / TICKS
    ensures var slot := (scaled - start) / TICKS;
            var deadline := start + (last + 1) * TICKS;
            && 0 < deadline <= scaled + TICKS
            && (scaled >= deadline <==> last < slot)
            && (scaled >= deadline ==> deadline + (scaled - deadline) / TICKS * TICKS == start + slot * TICKS)
  {
    var slot := (scaled - start) / TICKS;
    assert start + slot * TICKS <= scaled < start + (slot + 1) * TICKS;
    var deadline := start + (last + 1) * TICKS;
    if scaled >= deadline {
      assert (scaled - deadline) / TICKS == slot - last - 1;
    }
  }

  /** For a constant rate the schedule is the plain slot rule: it never restarts after the first frame, and a frame is
      kept exactly when it is the first one in its slot. */
  lemma PacerIsTheSlotRule(sources: seq<Source>, fps: int, i: nat)
    requires Positive(sources) && NonDecreasing(sources) && FixedRate(sources, fps) && i < |sources|
    ensures i > 0 ==> !Resyncs(ScheduleAfter(sources[..i]), Rate(fps), sources[i].time * Rate(fps))
    ensures Kept(sources, i) <==> forall j :: 0 <= j < i ==> Slot(sources, j) != Slot(sources, i)
    ensures Kept(sources, i) ==>
              Stamp(sources, i).value == (sources[0].time * Rate(fps) + Slot(sources, i) * TICKS) / Rate(fps) / 10
  {
    FrameBehindSlot(sources, fps, i);
    if i > 0 {
      SlotsAreOrdered(sources, i - 1, i);
      forall j | 0 <= j < i
        ensures Slot(sources, j) <= Slot(sources, i - 1)
      {
        SlotsAreOrdered(sources, j, i - 1);
      }
    }
  }

  function KeptCount(sources: seq<Source>, n: nat): nat
    requires n <= |sources|
  {
    if n == 0 then 0 else KeptCount(sources, n - 1) + (if Kept(sources, n - 1) then 1 else 0)
  }

  function SlotList(sources: seq<Source>): (slots: seq<int>)
    ensures |slots| == |sources| && forall i :: 0 <= i < |sources| ==> slots[i] == Slot(sources, i)
  {
    seq(|sources|, i requires 0 <= i < |sources| => Slot(sources, i))
  }

  lemma SlotListIsOrdered(sources: seq<Source>)
    requires NonDecreasing(sources)
    ensures forall i, j :: 0 <= i <= j < |sources| ==> 0 <= SlotList(sources)[i] <= SlotList(sources)[j]
  {
    forall i, j | 0 <= i <= j < |sources|
      ensures 0 <= SlotList(sources)[i] <= SlotList(sources)[j]
    {
      SlotsAreOrdered(sources, i, j);
    }
  }

  function Values(slots: seq<int>): set<int> {
    set slot | slot in slots
  }

  lemma KeptIsNewSlot(sources: seq<Source>, fps: int, i: nat)
    requires Positive(sources) && NonDecreasing(sources) && FixedRate(sources, fps) && i < |sources|
    ensures Kept(sources, i) <==> SlotList(sources)[i] !in SlotList(sources)[..i]
  {
    PacerIsTheSlotRule(sources, fps, i);
  }

  lemma ValuesGrow(slots: seq<int>, n: nat)
    requires n < |slots|
    ensures |Values(slots[..n + 1])| == |Values(slots[..n])| + if slots[n] in slots[..n] then 0 else 1
  {
    assert slots[..n + 1] == slots[..n] + [slots[n]];
    assert Values(slots[..n + 1]) == Values(slots[..n]) + {slots[n]};
  }

  lemma {:induction false} KeptCountIsSlotCount(sources: seq<Source>, fps: int, n: nat)
    requires Positive(sources) && NonDecreasing(sources) && FixedRate(sources, fps) && n <= |sources|
    ensures KeptCount(sources, n) == |Values(SlotList(sources)[..n])|
  {
    if n > 0 {
      KeptCountIsSlotCount(sources, fps, n - 1);
      KeptIsNewSlot(sources, fps, n - 1);
      ValuesGrow(SlotList(sources), n - 1);
    }
  }

  function FirstSlots(n: nat): (slots: set<int>)
    ensures |slots| == n
    ensures forall slot :: slot in slots <==> 0 <= slot < n
  {
    if n == 0 then {} else FirstSlots(n - 1) + {n - 1}
  }

  lemma SubsetSize(a: set<int>, b: set<int>)
    requires a <= b
    ensures |a| <= |b|
    ensures |a| == |b| <==> a == b
  {
    assert b == a + (b - a);
  }

  lemma ValuesUpTo(slots: seq<int>, last: int)
    requires 0 <= last && forall slot :: slot in slots ==> 0 <= slot <= last
    ensures |Values(slots)| <= last + 1
    ensures |Values(slots)| == last + 1 <==> forall slot :: 0 <= slot <= last ==> slot in slots
  {
    SubsetSize(Values(slots), FirstSlots(last + 1));
    if forall slot :: 0 <= slot <= last ==> slot in slots {
      assert Values(slots) == FirstSlots(last + 1);
    } else {
      var slot :| 0 <= slot <= last && slot !in slots;
      assert slot in FirstSlots(last + 1) && slot !in Values(slots);
    }
  }

  /** No drift: the kept frames are at most one per slot elapsed, and exactly that when every slot holds a frame. */
  lemma NoDrift(sources: seq<Source>, fps: int)
    requires Positive(sources) && NonDecreasing(sources) && FixedRate(sources, fps) && sources != []
    ensures var lastSlot := SlotList(sources)[|sources| - 1];
            && 0 <= lastSlot
            && KeptCount(sources, |sources|) <= lastSlot + 1
            && (KeptCount(sources, |sources|) == lastSlot + 1
                <==> forall slot :: 0 <= slot <= lastSlot ==> slot in SlotList(sources))
  {
    var slots := SlotList(sources);
    var lastSlot := slots[|sources| - 1];
    SlotListIsOrdered(sources);
    KeptCountIsSlotCount(sources, fps, |sources|);
    assert slots[..|sources|] == slots;
    ValuesUpTo(slots, lastSlot);
  }

  // ---------------------------------------------------------------------------------------------
  // Stamps
  // ---------------------------------------------------------------------------------------------

  /** The last stamp given before frame n, or 0. */
  function LastStamp(sources: seq<Source>, n: nat): int
    requires n <= |sources|
  {
    if n == 0 then 0 else if Kept(sources, n - 1) then Stamp(sources, n - 1).value else LastStamp(sources, n - 1)
  }

  /** The invariant of the timeline: the deadline is at most a slot ahead of the last frame, and every stamp given
      so far is covered by both the last frame's time and the slot before the deadline. */
  ghost predicate OnTime(s: Schedule, time: int, lastStamp: int) {
    && s.fps >= 1 && TICKS < s.deadline <= time * s.fps + TICKS
    && lastStamp <= (s.deadline - TICKS) / s.fps / 10
    && lastStamp <= time / 10
  }

  lemma StampBetween(low: int, deadline: int, time: int, rate: int)
    requires rate >= 1 && low <= deadline <= time * rate
    ensures low / rate / 10 <= deadline / rate / 10 <= time / 10
  {
    QuotientMonotone(low, deadline, rate);
    QuotientMonotone(deadline, time * rate, rate);
    QuotientOfProduct(time, rate);
  }

  /** A frame that restarts the schedule is stamped with its own time. */
  lemma RestartStep(s: Schedule, lastStamp: int, source: Source)
    requires 0 < source.time && lastStamp <= source.time / 10
    requires Resyncs(s, Rate(source.targetFps), source.time * Rate(source.targetFps))
    ensures var (next, stamp) := Selected(s, source.targetFps, source.time, 0);
            stamp == Some(source.time / 10) && OnTime(next, source.time, source.time / 10)
  {
    var rate := Rate(source.targetFps);
    var scaled := source.time * rate;
    QuotientOfProduct(source.time, rate);
    MultiplyMonotone(1, source.time, rate);
    var next := Selected(s, source.targetFps, source.time, 0).0;
    assert (scaled - scaled) / TICKS * TICKS == 0;
    assert next == Schedule(rate, scaled + TICKS);
  }

  /** A frame on schedule is stamped between the slot before the deadline and its own time. */
  lemma FollowStep(s: Schedule, before: int, lastStamp: int, source: Source)
    requires OnTime(s, before, lastStamp) && before <= source.time
    requires s.fps == Rate(source.targetFps)
    ensures !Resyncs(s, s.fps, source.time * s.fps)
    ensures 0 < source.time ==>
              var (next, stamp) := Selected(s, source.targetFps, source.time, 0);
              && OnTime(next, source.time, if stamp.Some? then stamp.value else lastStamp)
              && (stamp.Some? ==> lastStamp <= stamp.value <= source.time / 10)
  {
    var scaled := source.time * s.fps;
    MultiplyMonotone(before, source.time, s.fps);
    if 0 < source.time && scaled >= s.deadline {
      var elapsed := (scaled - s.deadline) / TICKS;
      var slotDeadline := s.deadline + elapsed * TICKS;
      assert Selected(s, source.targetFps, source.time, 0)
          == (Schedule(s.fps, slotDeadline + TICKS), Some(slotDeadline / s.fps / 10));
      assert s.deadline <= slotDeadline <= scaled;
      StampBetween(s.deadline - TICKS, slotDeadline, source.time, s.fps);
    }
  }

  lemma StampStep(s: Schedule, before: int, lastStamp: int, source: Source)
    requires (s == UNSET && lastStamp == 0) || OnTime(s, before, lastStamp)
    requires 0 < source.time && before <= source.time
    ensures var (next, stamp) := Selected(s, source.targetFps, source.time, 0);
            && OnTime(next, source.time, if stamp.Some? then stamp.value else lastStamp)
            && (stamp.Some? ==> lastStamp <= stamp.value <= source.time / 10)
  {
    if Resyncs(s, Rate(source.targetFps), source.time * Rate(source.targetFps)) {
      RestartStep(s, lastStamp, source);
    } else {
      FollowStep(s, before, lastStamp, source);
    }
  }

  lemma {:induction false} RunIsOnTime(sources: seq<Source>, n: nat)
    requires 0 < n <= |sources| && Positive(sources) && NonDecreasing(sources)
    ensures OnTime(ScheduleAfter(sources[..n]), sources[n - 1].time, LastStamp(sources, n))
  {
    assert sources[..n][..n - 1] == sources[..n - 1];
    if n > 1 {
      RunIsOnTime(sources, n - 1);
    }
    StampStep(ScheduleAfter(sources[..n - 1]), if n > 1 then sources[n - 2].time else 0, LastStamp(sources, n - 1),
              sources[n - 1]);
  }

  lemma {:induction false} LastStampCovers(sources: seq<Source>, i: nat, n: nat)
    requires i < n <= |sources| && Positive(sources) && NonDecreasing(sources) && Kept(sources, i)
    ensures Stamp(sources, i).value <= LastStamp(sources, n)
    decreases n - i
  {
    if n - 1 > i {
      LastStampCovers(sources, i, n - 1);
      RunIsOnTime(sources, n - 1);
      StampStep(ScheduleAfter(sources[..n - 1]), sources[n - 2].time, LastStamp(sources, n - 1), sources[n - 1]);
    }
  }

  /** Stamps never run ahead of their source and never go backwards, however the rate changes on the way. */
  lemma StampsNeverGoBack(sources: seq<Source>, i: nat, j: nat)
    requires i < j < |sources| && Positive(sources) && NonDecreasing(sources)
    requires Kept(sources, i) && Kept(sources, j)
    ensures Stamp(sources, i).value <= Stamp(sources, j).value <= sources[j].time / 10
  {
    LastStampCovers(sources, i, j);
    RunIsOnTime(sources, j);
    StampStep(ScheduleAfter(sources[..j]), sources[j - 1].time, LastStamp(sources, j), sources[j]);
  }

  lemma StampOfSlot(sources: seq<Source>, fps: int, i: nat)
    requires Positive(sources) && NonDecreasing(sources) && FixedRate(sources, fps)
    requires i < |sources| && Kept(sources, i)
    ensures sources[0].time * Rate(fps) >= 0
    ensures Stamp(sources, i) == Some((sources[0].time * Rate(fps) + Slot(sources, i) * TICKS) / Rate(fps) / 10)
  {
    PacerIsTheSlotRule(sources, fps, i);
    MultiplyMonotone(0, sources[0].time, Rate(fps));
  }

  lemma KeptSlotsDiffer(sources: seq<Source>, fps: int, i: nat, j: nat)
    requires i < j < |sources| && Positive(sources) && NonDecreasing(sources) && FixedRate(sources, fps)
    ensures Kept(sources, j) ==> 0 <= Slot(sources, i) < Slot(sources, j)
  {
    SlotListIsOrdered(sources);
    KeptIsNewSlot(sources, fps, j);
    var slots := SlotList(sources);
    assert slots[i] == slots[..j][i];
  }

  /** At a fixed rate of up to a million frames a second two stamps are at least a rounded frame time apart. */
  lemma StampsAdvance(sources: seq<Source>, fps: int, i: nat, j: nat)
    requires i < j < |sources| && Positive(sources) && NonDecreasing(sources) && FixedRate(sources, fps)
    requires Rate(fps) <= 1_000_000
    ensures Kept(sources, i) && Kept(sources, j) ==>
              && Stamp(sources, i).value + TICKS / Rate(fps) / 10 <= Stamp(sources, j).value
              && Stamp(sources, i).value < Stamp(sources, j).value
  {
    if Kept(sources, i) && Kept(sources, j) {
      var start := sources[0].time * Rate(fps);
      StampOfSlot(sources, fps, i);
      StampOfSlot(sources, fps, j);
      KeptSlotsDiffer(sources, fps, i, j);
      SlotTime(start, Slot(sources, i), Slot(sources, j), Rate(fps));
    }
  }

  lemma SlotTime(start: int, first: int, second: int, rate: int)
    requires 1 <= rate <= 1_000_000 && 0 <= start && 0 <= first < second
    ensures (start + first * TICKS) / rate / 10 + TICKS / rate / 10 <= (start + second * TICKS) / rate / 10
    ensures TICKS / rate / 10 >= 1
  {
    var a, b := start + first * TICKS, start + second * TICKS;
    QuotientOfSum(a, TICKS, rate);
    QuotientMonotone(a + TICKS, b, rate);
    MultiplyMonotone(rate, 1_000_000, 10);
    QuotientAtLeast(TICKS, rate, 10);
  }
}
