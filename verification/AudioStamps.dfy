/**
 The timestamps of audio frames against the capture clock: every frame, whichever block completes it, against
 the time of its first sample in the block in which it starts.
 */
module AudioStamps {
  import opened AudioFraming
  import opened AudioRing
  import opened Division

  // ---------------------------------------------------------------------------------------------
  // The clock
  // ---------------------------------------------------------------------------------------------

  lemma MicrosPerSample(samples: nat, channels: nat)
    requires channels > 0
    ensures Micros(samples, channels) == samples as real * Micros(1, channels)
  {
    var d := SAMPLE_RATE * channels as real;
    assert d > 0.0;
    assert samples as real / d * d == samples as real;
    assert 1.0 / d * d == 1.0;
    assert samples as real / d == samples as real * (1.0 / d);
  }

  lemma MicrosAdd(a: nat, b: nat, channels: nat)
    requires channels > 0
    ensures Micros(a + b, channels) == Micros(a, channels) + Micros(b, channels)
  {
    MicrosPerSample(a, channels);
    MicrosPerSample(b, channels);
    MicrosPerSample(a + b, channels);
    var u := Micros(1, channels);
    assert (a + b) as real * u == a as real * u + b as real * u;
  }

  lemma {:induction false} MicrosTimes(k: nat, size: nat, channels: nat)
    requires channels > 0
    ensures Micros(k * size, channels) == k as real * Micros(size, channels)
  {
    if k == 0 {
      MicrosPerSample(0, channels);
    } else {
      MicrosTimes(k - 1, size, channels);
      assert k * size == (k - 1) * size + size;
      MicrosAdd((k - 1) * size, size, channels);
    }
  }

  lemma FactorIsZero(x: real, c: real)
    requires c > 0.0 && x * c == 0.0
    ensures x == 0.0
  {
  }

  /** A frame of n samples per channel lasts n * 125 / 6 microseconds. */
  lemma FrameTime(frameSize: nat, channels: nat)
    requires channels > 0
    ensures Micros(frameSize * channels, channels) == frameSize as real * 125.0 / 6.0
  {
    var c := channels as real;
    var d := SAMPLE_RATE * c;
    var q := (frameSize * channels) as real / d;
    assert q * d == (frameSize * channels) as real == frameSize as real * c;
    assert (q * SAMPLE_RATE - frameSize as real) * c == 0.0;
    FactorIsZero(q * SAMPLE_RATE - frameSize as real, c);
  }

  lemma FloorOfWhole(x: real, m: int)
    requires x == m as real
    ensures (x + 0.5).Floor == m
  {
  }

  /** A frame of a multiple of six samples per channel lasts a whole number of microseconds. */
  lemma WholeFrameTime(frameSize: nat, channels: nat)
    requires channels > 0 && frameSize % 6 == 0
    ensures Micros(frameSize * channels, channels) == RoundedMicros(frameSize * channels, channels) as real
  {
    FrameTime(frameSize, channels);
    var n := frameSize / 6;
    var x := Micros(frameSize * channels, channels);
    assert x == (n * 125) as real by {
      SixthsAreWhole(frameSize, n);
    }
    FloorOfWhole(x, n * 125);
  }

  lemma SixthsAreWhole(frameSize: nat, n: nat)
    requires frameSize == 6 * n
    ensures frameSize as real * 125.0 / 6.0 == (n * 125) as real
  {
    assert frameSize as real == 6.0 * n as real;
  }

  predicate WithinHalf(stamp: int, exact: real) {
    -0.5 <= stamp as real - exact <= 0.5
  }

  /** The rounding of the first part of a block is all the error there is. */
  lemma LaterStamp(frameSize: nat, channels: nat, needed: nat, n: nat, time: int)
    requires channels > 0 && frameSize % 6 == 0
    ensures var size := frameSize * channels;
            WithinHalf(time + RoundedMicros(needed, channels) + n * RoundedMicros(size, channels),
                       time as real + Micros(needed + n * size, channels))
  {
    var size := frameSize * channels;
    WholeFrameTime(frameSize, channels);
    MicrosAdd(needed, n * size, channels);
    MicrosTimes(n, size, channels);
    assert (n * RoundedMicros(size, channels)) as real == n as real * Micros(size, channels);
  }

  // ---------------------------------------------------------------------------------------------
  // The stamps of all frames that have started
  // ---------------------------------------------------------------------------------------------

  function Stamps(frames: seq<AudioFrame>): (stamps: seq<int>)
    ensures |stamps| == |frames| && forall k :: 0 <= k < |frames| ==> stamps[k] == frames[k].timestamp
  {
    seq(|frames|, k requires 0 <= k < |frames| => frames[k].timestamp)
  }

  /** The stamp of the frame under way, if there is one. */
  function UnderWay(p: Partial): seq<int> {
    if p.samples == [] then [] else [p.timestamp]
  }

  function Started(rest: Partial, frames: seq<AudioFrame>): seq<int> {
    Stamps(frames) + UnderWay(rest)
  }

  /** Frames that start in a block that finds nothing under way are one rounded frame time apart; the one left under
      way is stamped like the others. */
  lemma {:induction false} StampsAreEven(size: nat, clock: Clock, block: seq<real>, time: int, j: nat)
    requires size > 0 && j * size < |block|
    ensures var (rest, frames) := Cut(size, clock, NOTHING, block, time);
            j < |Started(rest, frames)| && Started(rest, frames)[j] == time + j * clock(size)
    decreases |block|
  {
    if |block| < size {
      LessThanOne(j, size, |block|);
    } else {
      var first := AudioFrame([] + block[..size], time);
      var (rest, frames) := Cut(size, clock, NOTHING, block[size..], time + clock(size));
      assert Cut(size, clock, NOTHING, block, time) == (rest, [first] + frames);
      if j > 0 {
        OneLess(j, size);
        OneLess(j, clock(size));
        StampsAreEven(size, clock, block[size..], time + clock(size), j - 1);
      }
    }
  }

  lemma LessThanOne(j: nat, size: nat, limit: nat)
    requires j * size < limit <= size
    ensures j == 0
  {
    if j >= 1 {
      MultiplyMonotone(1, j, size);
      assert false;
    }
  }

  lemma OneLess(j: nat, x: int)
    requires j > 0
    ensures j * x == (j - 1) * x + x
  {
  }

  /** The stamp of the frame that starts at offset j * size - |p.samples| of a block. */
  function StampIn(size: nat, clock: Clock, p: Partial, time: int, j: nat): int
    requires j > 0 || p.samples == []
    requires |p.samples| < size
  {
    if p.samples == [] then time + j * clock(size) else time + clock(size - |p.samples|) + (j - 1) * clock(size)
  }

  /** All frames that start in a block, with whatever it finds under way. */
  lemma StampsOfBlock(size: nat, clock: Clock, p: Partial, block: seq<real>, time: int, j: nat)
    requires |p.samples| < size && |p.samples| <= j * size < |p.samples| + |block|
    ensures j > 0 || p.samples == []
    ensures var (rest, frames) := Cut(size, clock, p, block, time);
            j < |Started(rest, frames)| && Started(rest, frames)[j] == StampIn(size, clock, p, time, j)
  {
    if p.samples == [] {
      if p != NOTHING {
        OnlySamplesCount(size, clock, p, block, time);
      }
      StampsAreEven(size, clock, block, time, j);
    } else {
      var needed := size - |p.samples|;
      OneLess(j, size);
      if |block| < needed {
        LessThanOne(j, size, |p.samples| + |block|);
      } else {
        var (rest, frames) := Cut(size, clock, NOTHING, block[needed..], time + clock(needed));
        var first := AudioFrame(p.samples + block[..needed], p.timestamp);
        assert Cut(size, clock, p, block, time) == (rest, [first] + frames);
        StampsAreEven(size, clock, block[needed..], time + clock(needed), j - 1);
      }
    }
  }

  /** A block that finds no samples under way ignores the stored time. */
  lemma OnlySamplesCount(size: nat, clock: Clock, p: Partial, block: seq<real>, time: int)
    requires size > 0 && p.samples == [] && block != []
    ensures Cut(size, clock, p, block, time) == Cut(size, clock, NOTHING, block, time)
  {
  }

  /** A frame under way keeps its stamp, whether the block completes it or not. */
  lemma UnderWayKeepsStamp(size: nat, clock: Clock, p: Partial, block: seq<real>, time: int)
    requires |p.samples| < size && p.samples != []
    ensures var (rest, frames) := Cut(size, clock, p, block, time);
            Started(rest, frames) != [] && Started(rest, frames)[0] == p.timestamp
  {
  }

  /** The position of a block in the input. */
  function StartOf(blocks: seq<Block>, b: nat): nat
    requires b <= |blocks|
  {
    |Input(blocks[..b])|
  }

  function StampsOfRun(size: nat, clock: Clock, blocks: seq<Block>): seq<int>
    requires size > 0
  {
    var (rest, frames) := CutAll(size, clock, blocks);
    Started(rest, frames)
  }

  lemma StampsSplit(a: seq<AudioFrame>, b: seq<AudioFrame>)
    ensures Stamps(a + b) == Stamps(a) + Stamps(b)
  {
  }

  /** What has started keeps its stamp through one more block. */
  lemma StartedKeepsStamp(size: nat, clock: Clock, blocks: seq<Block>, k: nat)
    requires size > 0 && blocks != []
    requires k < |StampsOfRun(size, clock, blocks[..|blocks| - 1])|
    ensures k < |StampsOfRun(size, clock, blocks)|
    ensures StampsOfRun(size, clock, blocks)[k] == StampsOfRun(size, clock, blocks[..|blocks| - 1])[k]
  {
    var last := blocks[|blocks| - 1];
    var (p, frames) := CutAll(size, clock, blocks[..|blocks| - 1]);
    var (rest, more) := Cut(size, clock, p, last.samples, last.time);
    StampsSplit(frames, more);
    if p.samples != [] {
      UnderWayKeepsStamp(size, clock, p, last.samples, last.time);
    }
  }

  // ---------------------------------------------------------------------------------------------
  // Accuracy
  // ---------------------------------------------------------------------------------------------

  /** A relation between a stamp, the time of a block and an offset in samples. */
  type Rule = (int, int, nat) -> bool

  /** The stamp is within half a microsecond of the sample at the offset. */
  function HalfMicrosecond(channels: nat): Rule
    requires channels > 0
  {
    (stamp: int, time: int, offset: nat) => WithinHalf(stamp, time as real + Micros(offset, channels))
  }

  /** Frame k, if its first sample is in block b, has started, and its stamp is related to the time of that block. */
  ghost predicate Stamped(size: nat, clock: Clock, rule: Rule, blocks: seq<Block>, b: nat, k: nat)
    requires size > 0
  {
    b < |blocks| && StartOf(blocks, b) <= k * size < StartOf(blocks, b + 1) ==>
      && k < |StampsOfRun(size, clock, blocks)|
      && rule(StampsOfRun(size, clock, blocks)[k], blocks[b].time, k * size - StartOf(blocks, b))
  }

  ghost predicate StampsAccurate(frameSize: nat, channels: nat)
    requires channels > 0 && frameSize * channels > 0
  {
    forall blocks: seq<Block>, b: nat, k: nat ::
      Stamped(frameSize * channels, HostClock(channels), HalfMicrosecond(channels), blocks, b, k)
  }

  /** What the clock makes of one block keeps the relation, whatever is under way. */
  ghost predicate Fits(size: nat, clock: Clock, rule: Rule, p: Partial, time: int, j: nat) {
    |p.samples| < size && |p.samples| <= j * size && (j > 0 || p.samples == []) ==>
      rule(StampIn(size, clock, p, time, j), time, j * size - |p.samples|)
  }

  /** A relation that the clock keeps in single blocks holds for all frames of all runs. */
  lemma {:induction false} BlocksStampRuns(size: nat, clock: Clock, rule: Rule, blocks: seq<Block>, b: nat, k: nat)
    requires size > 0 && forall p: Partial, time: int, j: nat :: Fits(size, clock, rule, p, time, j)
    ensures Stamped(size, clock, rule, blocks, b, k)
    decreases |blocks|
  {
    if b < |blocks| && StartOf(blocks, b) <= k * size < StartOf(blocks, b + 1) {
      var before := blocks[..|blocks| - 1];
      if b < |blocks| - 1 {
        assert before[..b] == blocks[..b] && before[..b + 1] == blocks[..b + 1];
        BlocksStampRuns(size, clock, rule, before, b, k);
        StartedKeepsStamp(size, clock, blocks, k);
      } else {
        assert blocks[..b + 1] == blocks;
        LastBlockStamps(size, clock, rule, blocks, k);
      }
    }
  }

  lemma LastBlockStamps(size: nat, clock: Clock, rule: Rule, blocks: seq<Block>, k: nat)
    requires size > 0 && forall p: Partial, time: int, j: nat :: Fits(size, clock, rule, p, time, j)
    requires blocks != [] && |Input(blocks[..|blocks| - 1])| <= k * size < |Input(blocks)|
    ensures k < |StampsOfRun(size, clock, blocks)|
    ensures rule(StampsOfRun(size, clock, blocks)[k], blocks[|blocks| - 1].time,
                 k * size - |Input(blocks[..|blocks| - 1])|)
  {
    var last := blocks[|blocks| - 1];
    var (p, frames) := CutAll(size, clock, blocks[..|blocks| - 1]);
    InputLength(size, clock, blocks[..|blocks| - 1]);
    FirstOfBlock(k, |frames|, size, |p.samples|);
    StampsOfBlock(size, clock, p, last.samples, last.time, k - |frames|);
    assert Fits(size, clock, rule, p, last.time, k - |frames|);
    StampsOfLast(size, clock, blocks);
  }

  /** All samples are in frames or under way. */
  lemma InputLength(size: nat, clock: Clock, blocks: seq<Block>)
    requires size > 0
    ensures var (p, frames) := CutAll(size, clock, blocks);
            |Input(blocks)| == |frames| * size + |p.samples|
  {
    CutAllIsSlicing(size, clock, blocks);
    SamplesSoFar(size, CutAll(size, clock, blocks).1);
  }

  /** The frames before the last block keep their stamps, and then come those that start in it or were under way. */
  lemma StampsOfLast(size: nat, clock: Clock, blocks: seq<Block>)
    requires size > 0 && blocks != []
    ensures var last := blocks[|blocks| - 1];
            var (p, frames) := CutAll(size, clock, blocks[..|blocks| - 1]);
            var (rest, more) := Cut(size, clock, p, last.samples, last.time);
            StampsOfRun(size, clock, blocks) == Stamps(frames) + Started(rest, more)
  {
    var last := blocks[|blocks| - 1];
    var (p, frames) := CutAll(size, clock, blocks[..|blocks| - 1]);
    StampsSplit(frames, Cut(size, clock, p, last.samples, last.time).1);
  }

  lemma WholeFramesFit(frameSize: nat, channels: nat, p: Partial, time: int, j: nat)
    requires channels > 0 && frameSize * channels > 0 && frameSize % 6 == 0
    ensures Fits(frameSize * channels, HostClock(channels), HalfMicrosecond(channels), p, time, j)
  {
    var size := frameSize * channels;
    if |p.samples| < size && |p.samples| <= j * size && (j > 0 || p.samples == []) {
      if p.samples == [] {
        NoTime(channels);
        LaterStamp(frameSize, channels, 0, j, time);
      } else {
        OneLess(j, size);
        LaterStamp(frameSize, channels, size - |p.samples|, j - 1, time);
      }
    }
  }

  lemma NoTime(channels: nat)
    requires channels > 0
    ensures RoundedMicros(0, channels) == 0
  {
    MicrosPerSample(0, channels);
  }

  lemma SamplesSoFar(size: nat, frames: seq<AudioFrame>)
    requires forall k :: 0 <= k < |frames| ==> |frames[k].samples| == size
    ensures |Joined(frames)| == |frames| * size
  {
    if frames != [] {
      FrameIsSlice(size, frames, 0);
    }
  }

  lemma FirstOfBlock(k: nat, count: nat, size: nat, partial: nat)
    requires count * size + partial <= k * size && size > 0
    ensures count <= k && (k - count) * size == k * size - count * size
  {
    if k < count {
      MultiplyMonotone(k + 1, count, size);
      assert false;
    }
  }

  lemma OneBlock(size: nat, clock: Clock, block: Block)
    requires size > 0
    ensures CutAll(size, clock, [block]) == Cut(size, clock, NOTHING, block.samples, block.time)
    ensures StartOf([block], 0) == 0 && StartOf([block], 1) == |block.samples|
  {
    assert [block][..0] == [] && [block][..1] == [block];
    var (rest, frames) := Cut(size, clock, NOTHING, block.samples, block.time);
    assert [] + frames == frames;
    assert Input([block]) == [] + block.samples;
  }

  /** Otherwise the rounding of every frame adds up: the fifth frame of one block is already more than half a
      microsecond off. */
  lemma FractionsAddUp(frameSize: nat, channels: nat)
    requires channels > 0 && frameSize * channels > 0 && frameSize % 6 != 0
    ensures !StampsAccurate(frameSize, channels)
  {
    var size := frameSize * channels;
    var clock := HostClock(channels);
    var block := Block(seq(5 * size, _ => 0.0), 0);
    OneBlock(size, clock, block);
    StampsAreEven(size, clock, block.samples, 0, 4);
    MicrosTimes(4, size, channels);
    FrameTime(frameSize, channels);
    FourthStampIsOff(frameSize);
    assert !Stamped(size, clock, HalfMicrosecond(channels), [block], 0, 4);
  }

  lemma FourthStampIsOff(frameSize: nat)
    requires frameSize % 6 != 0
    ensures var exact := frameSize as real * 125.0 / 6.0;
            !WithinHalf(4 * (exact + 0.5).Floor, 4.0 * exact)
  {
    var n, r := frameSize / 6, frameSize % 6;
    var exact := frameSize as real * 125.0 / 6.0;
    assert exact == (n * 125) as real + r as real * 125.0 / 6.0;
    if r == 1 {
      assert (exact + 0.5).Floor == n * 125 + 21;
    } else if r == 2 {
      assert (exact + 0.5).Floor == n * 125 + 42;
    } else if r == 3 {
      assert (exact + 0.5).Floor == n * 125 + 63;
    } else if r == 4 {
      assert (exact + 0.5).Floor == n * 125 + 83;
    } else {
      assert (exact + 0.5).Floor == n * 125 + 104;
    }
  }

  /** For all runs of blocks, every frame that has started, complete or under way, is stamped to half a microsecond
      of its first sample's time in its block, exactly when a frame lasts a whole number of microseconds: when its
      length per channel is a multiple of six samples. */
  lemma StampsAccurateIff(frameSize: nat, channels: nat)
    requires channels > 0 && frameSize * channels > 0
    ensures StampsAccurate(frameSize, channels) <==> frameSize % 6 == 0
  {
    if frameSize % 6 == 0 {
      WholeFramesAreAccurate(frameSize, channels);
    } else {
      FractionsAddUp(frameSize, channels);
    }
  }

  lemma WholeFramesAreAccurate(frameSize: nat, channels: nat)
    requires channels > 0 && frameSize * channels > 0 && frameSize % 6 == 0
    ensures StampsAccurate(frameSize, channels)
  {
    var size, clock, rule := frameSize * channels, HostClock(channels), HalfMicrosecond(channels);
    forall p: Partial, time: int, j: nat
      ensures Fits(size, clock, rule, p, time, j)
    {
      WholeFramesFit(frameSize, channels, p, time, j);
    }
    forall blocks: seq<Block>, b: nat, k: nat
      ensures Stamped(size, clock, rule, blocks, b, k)
    {
      BlocksStampRuns(size, clock, rule, blocks, b, k);
    }
  }

  lemma ProductIsPositive(a: nat, b: nat)
    requires a > 0 && b > 0
    ensures a * b > 0
  {
    MultiplyMonotone(1, b, a);
  }

  /** The host's frames last whole milliseconds, 48 samples each: all of them are stamped accurately. */
  lemma HostFramesAreAccurate(milliseconds: nat, channels: nat)
    requires milliseconds > 0 && channels > 0
    ensures 48 * milliseconds * channels > 0 && StampsAccurate(48 * milliseconds, channels)
  {
    ProductIsPositive(48 * milliseconds, channels);
    assert 48 * milliseconds == 6 * (8 * milliseconds);
    StampsAccurateIff(48 * milliseconds, channels);
  }
}
