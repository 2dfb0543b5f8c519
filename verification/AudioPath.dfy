/**
 The audio path from the capture thread to the encoder: blocks are cut into frames and pushed while the
 encoder pops, in any order.
 */
module AudioPath {
  import opened AudioFraming
  import opened AudioStamps
  import opened Division
  import AudioRing

  datatype Action = Capture(block: Block) | Encode

  /** The frame under way, and the ring with everything pushed and popped so far. */
  datatype Path = Path(underWay: Partial, history: AudioRing.History)

  const SILENT := Path(NOTHING, AudioRing.SILENT)

  function Pushed(h: AudioRing.History, frames: seq<AudioRing.AudioFrame>): AudioRing.History {
    AudioRing.History(AudioRing.PushedAll(h.ring, frames), h.pushed + frames, h.popped)
  }

  /** Frames smaller than the initial working buffer never reach the ring. */
  function Step(size: nat, clock: Clock, path: Path, action: Action): Path
    requires size > 0 && |path.underWay.samples| < size
    ensures |Step(size, clock, path, action).underWay.samples| < size
  {
    match action
    case Capture(block) =>
      CutIsSlicing(size, clock, path.underWay, block.samples, block.time);
      var (rest, frames) := Cut(size, clock, path.underWay, block.samples, block.time);
      Path(rest, if INITIAL_BUFFER <= size then Pushed(path.history, frames) else path.history)
    case Encode => path.(history := AudioRing.Next(path.history, AudioRing.Pop))
  }

  function Run(size: nat, clock: Clock, actions: seq<Action>): (path: Path)
    requires size > 0
    ensures |path.underWay.samples| < size
  {
    if actions == [] then SILENT
    else Step(size, clock, Run(size, clock, actions[..|actions| - 1]), actions[|actions| - 1])
  }

  /** The blocks captured, in order. */
  function Blocks(actions: seq<Action>): seq<Block> {
    if actions == [] then []
    else
      var blocks, last := Blocks(actions[..|actions| - 1]), actions[|actions| - 1];
      if last.Capture? then blocks + [last.block] else blocks
  }

  /** The channels that the code derives from the frame length are the configured ones. */
  lemma ChannelsOfFrame(frameSize: nat, channels: nat)
    requires frameSize > 0 && channels > 0
    ensures Channels(frameSize * channels, frameSize, channels) == channels
  {
    QuotientOfProduct(channels, frameSize);
    assert frameSize * channels == channels * frameSize;
  }

  /** The code on a run: the ring holds, and the encoder has, what the run says. */
  method CaptureAndEncode(frameSize: nat, channels: nat, actions: seq<Action>)
    returns (capturer: Capturer, popped: seq<AudioRing.AudioFrame>)
    requires frameSize > 0 && channels > 0 && frameSize * channels > 0
    ensures capturer.Valid()
    ensures var size := frameSize * channels;
            var path := Run(size, HostClock(channels), actions);
            popped == path.history.popped && capturer.ring.Value() == path.history.ring
  {
    capturer := new Capturer(frameSize, channels);
    popped := [];
    ChannelsOfFrame(frameSize, channels);
    ghost var size, clock := capturer.samplesPerFrame, capturer.clock;
    for i := 0 to |actions|
      invariant capturer.Valid() && fresh(capturer)
      invariant fresh(capturer.currentFrameBuffer) && fresh(capturer.ring)
      invariant fresh(capturer.ring.frames) && fresh(capturer.ring.timestamps)
      invariant capturer.samplesPerFrame == size && capturer.clock == clock
      invariant capturer.currentFrameBuffer.Length > size <==> INITIAL_BUFFER > size
      invariant capturer.Value() == Run(size, clock, actions[..i]).underWay
      invariant capturer.ring.Value() == Run(size, clock, actions[..i]).history.ring
      invariant popped == Run(size, clock, actions[..i]).history.popped
    {
      assert actions[..i + 1][..i] == actions[..i];
      match actions[i]
      case Capture(block) =>
        capturer.ProcessAudioFrame(block.samples, block.time);
      case Encode =>
        var ok, frame, timestamp := capturer.ring.Pop();
        if ok {
          popped := popped + [AudioRing.AudioFrame(frame, timestamp)];
        }
    }
    assert actions[..|actions|] == actions;
  }

  lemma {:induction false} PushesKeepNewest(h: AudioRing.History, positions: seq<nat>,
                                            frames: seq<AudioRing.AudioFrame>)
    requires AudioRing.Newest(h, positions)
    ensures AudioRing.Newest(Pushed(h, frames), positions)
    decreases |frames|
  {
    if frames == [] {
      assert h.pushed + [] == h.pushed;
    } else {
      var next := AudioRing.Next(h, AudioRing.Push(frames[0]));
      AudioRing.PushKeepsNewest(h, positions, frames[0]);
      PushesKeepNewest(next, positions, frames[1..]);
      assert h.pushed + [frames[0]] + frames[1..] == h.pushed + frames;
    }
  }

  /** The frames pushed are the frames of the captured blocks. */
  lemma {:induction false} PathPushesFrames(size: nat, clock: Clock, actions: seq<Action>)
    requires size > 0
    ensures Run(size, clock, actions).underWay == CutAll(size, clock, Blocks(actions)).0
    ensures Run(size, clock, actions).history.pushed
            == if INITIAL_BUFFER <= size then CutAll(size, clock, Blocks(actions)).1 else []
  {
    if actions != [] {
      var before, last := actions[..|actions| - 1], actions[|actions| - 1];
      PathPushesFrames(size, clock, before);
      if last.Capture? {
        assert Blocks(actions)[..|Blocks(actions)| - 1] == Blocks(before);
      }
    }
  }

  lemma {:induction false} PathKeepsNewest(size: nat, clock: Clock, actions: seq<Action>) returns (positions: seq<nat>)
    requires size > 0
    ensures AudioRing.Newest(Run(size, clock, actions).history, positions)
  {
    if actions == [] {
      positions := [];
    } else {
      var path, last := Run(size, clock, actions[..|actions| - 1]), actions[|actions| - 1];
      positions := PathKeepsNewest(size, clock, actions[..|actions| - 1]);
      match last {
        case Capture(block) =>
          PushesKeepNewest(path.history, positions,
                           Cut(size, clock, path.underWay, block.samples, block.time).1);
        case Encode =>
          positions := AudioRing.PopKeepsNewest(path.history, positions);
      }
    }
  }

  /** Over any mix of blocks and pops: the frames the encoder gets are slices of the captured input, at increasing
      positions, and the ring holds the newest slices, at most three. Frames of fewer than 960 samples never reach
      it. */
  lemma EncoderGetsInputSlices(size: nat, clock: Clock, actions: seq<Action>) returns (positions: seq<nat>)
    requires size > 0
    ensures var h := Run(size, clock, actions).history;
            && AudioRing.Newest(h, positions)
            && (INITIAL_BUFFER <= size ==>
                  && |h.pushed| == |Input(Blocks(actions))| / size
                  && (forall k :: 0 <= k < |h.popped| ==>
                        IsSlice(h.popped[k].samples, Input(Blocks(actions)), positions[k], size))
                  && forall k :: 0 <= k < |h.pushed| ==> IsSlice(h.pushed[k].samples, Input(Blocks(actions)), k, size))
            && (INITIAL_BUFFER > size ==> h.popped == [])
  {
    positions := PathKeepsNewest(size, clock, actions);
    PathPushesFrames(size, clock, actions);
    FramesAreInputSlices(size, clock, Blocks(actions));
  }

  /** The block in which a sample is. */
  lemma {:induction false} BlockOfSample(blocks: seq<Block>, n: nat) returns (b: nat)
    requires n < |Input(blocks)|
    ensures b < |blocks| && StartOf(blocks, b) <= n < StartOf(blocks, b + 1)
  {
    var before := blocks[..|blocks| - 1];
    if n < |Input(before)| {
      b := BlockOfSample(before, n);
      assert before[..b] == blocks[..b] && before[..b + 1] == blocks[..b + 1];
    } else {
      b := |blocks| - 1;
      assert blocks[..b + 1] == blocks;
    }
  }

  /** The frame at a position of the input starts in some block, and its stamp is related to the time of that block. */
  ghost predicate FrameStamped(size: nat, rule: Rule, blocks: seq<Block>, frame: AudioRing.AudioFrame, position: nat) {
    exists b: nat ::
      && b < |blocks| && StartOf(blocks, b) <= position * size < StartOf(blocks, b + 1)
      && rule(frame.timestamp, blocks[b].time, position * size - StartOf(blocks, b))
  }

  lemma PushedFrameStamped(size: nat, clock: Clock, rule: Rule, blocks: seq<Block>, k: nat)
    requires size > 0 && k < |CutAll(size, clock, blocks).1|
    requires forall b: nat :: Stamped(size, clock, rule, blocks, b, k)
    ensures FrameStamped(size, rule, blocks, CutAll(size, clock, blocks).1[k], k)
  {
    var frames := CutAll(size, clock, blocks).1;
    FramesAreInputSlices(size, clock, blocks);
    assert IsSlice(frames[k].samples, Input(blocks), k, size);
    assert (k + 1) * size == k * size + size;
    var b := BlockOfSample(blocks, k * size);
    assert Stamped(size, clock, rule, blocks, b, k);
    assert StampsOfRun(size, clock, blocks)[k] == frames[k].timestamp;
  }

  /** Over any mix of blocks and pops, with frames of a multiple of six samples per channel, as the host's always
      are: every frame that the encoder gets is stamped to half a microsecond of the time of its first sample in the
      block in which it starts. */
  lemma EncoderGetsAccurateStamps(frameSize: nat, channels: nat, actions: seq<Action>) returns (positions: seq<nat>)
    requires channels > 0 && frameSize * channels > 0 && frameSize % 6 == 0
    ensures var size := frameSize * channels;
            var h := Run(size, HostClock(channels), actions).history;
            && AudioRing.Newest(h, positions)
            && forall k :: 0 <= k < |h.popped| ==>
                 FrameStamped(size, HalfMicrosecond(channels), Blocks(actions), h.popped[k], positions[k])
  {
    var size, clock, rule := frameSize * channels, HostClock(channels), HalfMicrosecond(channels);
    StampsAccurateIff(frameSize, channels);
    positions := StampsReachEncoder(size, clock, rule, actions);
  }

  lemma StampsReachEncoder(size: nat, clock: Clock, rule: Rule, actions: seq<Action>) returns (positions: seq<nat>)
    requires size > 0
    requires forall blocks: seq<Block>, b: nat, k: nat :: Stamped(size, clock, rule, blocks, b, k)
    ensures var h := Run(size, clock, actions).history;
            && AudioRing.Newest(h, positions)
            && forall k :: 0 <= k < |h.popped| ==>
                 FrameStamped(size, rule, Blocks(actions), h.popped[k], positions[k])
  {
    positions := EncoderGetsInputSlices(size, clock, actions);
    PathPushesFrames(size, clock, actions);
    var h := Run(size, clock, actions).history;
    forall k | 0 <= k < |h.popped|
      ensures FrameStamped(size, rule, Blocks(actions), h.popped[k], positions[k])
    {
      assert h.popped[k] == h.pushed[positions[k]];
      PushedFrameStamped(size, clock, rule, Blocks(actions), positions[k]);
    }
  }
}
