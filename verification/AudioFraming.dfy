/**
 Re-framing of captured audio: blocks of any size are cut into frames of a fixed number of samples, each
 stamped with the time of its first sample, and pushed to the capture ring.
 */
module AudioFraming {
  import opened Division
  import opened AudioRing

  /** The working buffer is created for 960 samples and only ever grows. */
  const INITIAL_BUFFER: nat := 960

  /** 48000 samples a second and channel. */
  const SAMPLE_RATE: real := 48000.0

  /** The samples of the frame under way and the time of its first one. */
  datatype Partial = Partial(samples: seq<real>, timestamp: int)

  const NOTHING := Partial([], 0)

  function Micros(samples: nat, channels: nat): real
    requires channels > 0
  {
    samples as real / (SAMPLE_RATE * channels as real) * 1_000_000.0
  }

  function RoundedMicros(samples: nat, channels: nat): int
    requires channels > 0
  {
    (Micros(samples, channels) + 0.5).Floor
  }

  /** How far a number of samples moves the clock. */
  type Clock = nat -> int

  function HostClock(channels: nat): Clock
    requires channels > 0
  {
    (samples: nat) => RoundedMicros(samples, channels)
  }

  function Channels(samplesPerFrame: nat, frameSize: nat, configured: nat): (channels: nat)
    ensures channels > 0
  {
    var c := if frameSize > 0 then samplesPerFrame / frameSize else configured;
    if c == 0 then 2 else c
  }

  /** One block cut into frames; the rest stays under way. */
  function Cut(size: nat, clock: Clock, p: Partial, block: seq<real>, time: int): (Partial, seq<AudioFrame>)
    requires size > 0 && |p.samples| < size
    decreases |block|
  {
    if block == [] then (p, [])
    else
      var start := if p.samples == [] then time else p.timestamp;
      var needed := size - |p.samples|;
      if |block| < needed then (Partial(p.samples + block, start), [])
      else
        var frame := AudioFrame(p.samples + block[..needed], start);
        var (rest, frames) := Cut(size, clock, NOTHING, block[needed..], time + clock(needed));
        (rest, [frame] + frames)
  }

  class Capturer {
    const samplesPerFrame: nat
    const frameSizeSamples: nat
    const clock: Clock
    const ring: RingBuffer
    var currentFrameBuffer: array<real>
    var currentFrameSamples: nat
    var currentFrameTimestamp: int

    ghost predicate Valid()
      reads this, currentFrameBuffer, ring, ring.frames, ring.timestamps
    {
      && samplesPerFrame > 0 && currentFrameSamples < samplesPerFrame
      && (currentFrameSamples > 0 ==> samplesPerFrame <= currentFrameBuffer.Length)
      && (currentFrameSamples == 0 ==> currentFrameTimestamp == 0)
      && ring.Valid() && ring.samplesPerFrame == samplesPerFrame
    }

    ghost function Value(): Partial
      requires Valid()
      reads this, currentFrameBuffer, ring, ring.frames, ring.timestamps
    {
      if currentFrameSamples == 0 then NOTHING
      else Partial(currentFrameBuffer[..currentFrameSamples], currentFrameTimestamp)
    }

    constructor (frameSize: nat, channels: nat)
      requires frameSize > 0 && channels > 0 && frameSize * channels > 0
      ensures Valid() && fresh(currentFrameBuffer) && fresh(ring) && fresh(ring.frames) && fresh(ring.timestamps)
      ensures frameSizeSamples == frameSize && samplesPerFrame == frameSize * channels
      ensures clock == HostClock(Channels(frameSize * channels, frameSize, channels))
      ensures currentFrameBuffer.Length == INITIAL_BUFFER
      ensures Value() == NOTHING && ring.Value() == Ring([], 0)
    {
      frameSizeSamples := frameSize;
      samplesPerFrame := frameSize * channels;
      clock := HostClock(Channels(frameSize * channels, frameSize, channels));
      currentFrameBuffer := new real[INITIAL_BUFFER](_ => 0.0);
      currentFrameSamples, currentFrameTimestamp := 0, 0;
      ring := new RingBuffer(frameSize * channels);
    }

    /** Copies the samples that still fit into the frame under way; the buffer grows to one frame when it is smaller. */
    method FillFrame(block: seq<real>, time: int) returns (copied: nat)
      requires Valid() && block != []
      modifies this`currentFrameBuffer, this`currentFrameSamples, this`currentFrameTimestamp, currentFrameBuffer
      ensures currentFrameBuffer == old(currentFrameBuffer) || fresh(currentFrameBuffer)
      ensures currentFrameBuffer.Length ==
              if old(currentFrameBuffer.Length) < samplesPerFrame then samplesPerFrame
              else old(currentFrameBuffer.Length)
      ensures var needed := samplesPerFrame - old(currentFrameSamples);
              copied == if |block| < needed then |block| else needed
      ensures currentFrameSamples == old(currentFrameSamples) + copied
      ensures currentFrameBuffer[..currentFrameSamples] == old(Value()).samples + block[..copied]
      ensures currentFrameTimestamp == if old(Value()).samples == [] then time else old(Value()).timestamp
    {
      ghost var partial := Value();
      if currentFrameSamples == 0 {
        currentFrameTimestamp := time;
      }
      if currentFrameBuffer.Length < samplesPerFrame {
        currentFrameBuffer := new real[samplesPerFrame](_ => 0.0);
      }
      var needed := samplesPerFrame - currentFrameSamples;
      copied := if |block| < needed then |block| else needed;
      forall i | 0 <= i < copied {
        currentFrameBuffer[currentFrameSamples + i] := block[i];
      }
      currentFrameSamples := currentFrameSamples + copied;
      assert currentFrameBuffer[..currentFrameSamples] == partial.samples + block[..copied];
    }

    /** Pushes the whole working buffer and starts the next frame. */
    method FinishFrame()
      requires ring.Valid() && ring.samplesPerFrame == samplesPerFrame > 0
      requires currentFrameSamples == samplesPerFrame <= currentFrameBuffer.Length
      modifies this`currentFrameSamples, this`currentFrameTimestamp, ring, ring.frames, ring.timestamps
      ensures Valid() && Value() == NOTHING
      ensures ring.Value() ==
              if currentFrameBuffer.Length == samplesPerFrame then
                Pushed(old(ring.Value()),
                       AudioFrame(old(currentFrameBuffer[..samplesPerFrame]), old(currentFrameTimestamp)))
              else old(ring.Value())
    {
      assert currentFrameBuffer.Length == samplesPerFrame ==>
          currentFrameBuffer[..] == currentFrameBuffer[..samplesPerFrame];
      var _ := ring.Push(currentFrameBuffer[..], currentFrameTimestamp);
      currentFrameSamples := 0;
      currentFrameTimestamp := 0;
    }

    /** Cuts a block into frames. The frames reach the ring unless the working buffer is larger than a frame: then each
        of them is refused, because the whole buffer is pushed. */
    method ProcessAudioFrame(block: seq<real>, time: int)
      requires Valid()
      modifies this, currentFrameBuffer, ring, ring.frames, ring.timestamps
      ensures Valid()
      ensures currentFrameBuffer == old(currentFrameBuffer) || fresh(currentFrameBuffer)
      ensures currentFrameBuffer.Length > samplesPerFrame <==> old(currentFrameBuffer.Length) > samplesPerFrame
      ensures var (rest, frames) := Cut(samplesPerFrame, clock, old(Value()), block, time);
              && Value() == rest
              && ring.Value() ==
                 if old(currentFrameBuffer.Length) <= samplesPerFrame then PushedAll(old(ring.Value()), frames)
                 else old(ring.Value())
      decreases |block|
    {
      if block == [] {
        return;
      }
      ghost var before, ringBefore := Value(), ring.Value();
      var copied := FillFrame(block, time);
      if currentFrameSamples >= samplesPerFrame {
        ghost var first := AudioFrame(before.samples + block[..copied], currentFrameTimestamp);
        ghost var (rest, frames) := Cut(samplesPerFrame, clock, NOTHING, block[copied..], time + clock(copied));
        assert Cut(samplesPerFrame, clock, before, block, time) == (rest, [first] + frames);
        FinishFrame();
        PushedAllFirst(ringBefore, first, frames);
        if copied < |block| {
          ProcessAudioFrame(block[copied..], time + clock(copied));
        } else {
          assert block[copied..] == [];
        }
      } else {
        assert block[..copied] == block;
      }
    }
  }

  // ---------------------------------------------------------------------------------------------
  // The frames are the slices of the input
  // ---------------------------------------------------------------------------------------------

  datatype Block = Block(samples: seq<real>, time: int)

  function CutAll(size: nat, clock: Clock, blocks: seq<Block>): (Partial, seq<AudioFrame>)
    requires size > 0
    ensures |CutAll(size, clock, blocks).0.samples| < size
  {
    if blocks == [] then (NOTHING, [])
    else
      var last := blocks[|blocks| - 1];
      var (p, frames) := CutAll(size, clock, blocks[..|blocks| - 1]);
      CutIsSlicing(size, clock, p, last.samples, last.time);
      var (rest, more) := Cut(size, clock, p, last.samples, last.time);
      (rest, frames + more)
  }

  function Joined(frames: seq<AudioFrame>): seq<real> {
    if frames == [] then [] else Joined(frames[..|frames| - 1]) + frames[|frames| - 1].samples
  }

  function Input(blocks: seq<Block>): seq<real> {
    if blocks == [] then [] else Input(blocks[..|blocks| - 1]) + blocks[|blocks| - 1].samples
  }

  lemma Associative(a: seq<real>, b: seq<real>, c: seq<real>)
    ensures a + b + c == a + (b + c)
  {
  }

  lemma {:induction false} JoinedConcat(a: seq<AudioFrame>, b: seq<AudioFrame>)
    ensures Joined(a + b) == Joined(a) + Joined(b)
  {
    if b == [] {
      assert a + b == a;
    } else {
      JoinedConcat(a, b[..|b| - 1]);
      assert (a + b)[..|a + b| - 1] == a + b[..|b| - 1];
      Associative(Joined(a), Joined(b[..|b| - 1]), b[|b| - 1].samples);
    }
  }

  /** A first frame in front of frames that, with the rest, make up the tail of the block. */
  lemma FirstFrameJoins(partial: seq<real>, block: seq<real>, needed: nat, first: AudioFrame, frames: seq<AudioFrame>,
                        rest: seq<real>)
    requires needed <= |block| && first.samples == partial + block[..needed]
    requires Joined(frames) + rest == block[needed..]
    ensures Joined([first] + frames) + rest == partial + block
  {
    JoinedConcat([first], frames);
    assert [first][..0] == [];
    assert Joined([first]) == first.samples;
    Associative(first.samples, Joined(frames), rest);
    Associative(partial, block[..needed], block[needed..]);
    assert block == block[..needed] + block[needed..];
  }

  /** One block: every frame has the full size, and frames and rest together are what was under way and the block. */
  lemma {:induction false} CutIsSlicing(size: nat, clock: Clock, p: Partial, block: seq<real>, time: int)
    requires size > 0 && |p.samples| < size
    ensures var (rest, frames) := Cut(size, clock, p, block, time);
            && |rest.samples| < size
            && (forall k :: 0 <= k < |frames| ==> |frames[k].samples| == size)
            && Joined(frames) + rest.samples == p.samples + block
    decreases |block|
  {
    var needed := size - |p.samples|;
    if |block| >= needed {
      var next := time + clock(needed);
      var (rest, frames) := Cut(size, clock, NOTHING, block[needed..], next);
      CutIsSlicing(size, clock, NOTHING, block[needed..], next);
      var first := AudioFrame(p.samples + block[..needed], if p.samples == [] then time else p.timestamp);
      assert [] + block[needed..] == block[needed..];
      FirstFrameJoins(p.samples, block, needed, first, frames, rest.samples);
      assert Cut(size, clock, p, block, time) == (rest, [first] + frames);
    }
  }

  lemma {:induction false} CutAllIsSlicing(size: nat, clock: Clock, blocks: seq<Block>)
    requires size > 0
    ensures var (rest, frames) := CutAll(size, clock, blocks);
            && (forall k :: 0 <= k < |frames| ==> |frames[k].samples| == size)
            && Joined(frames) + rest.samples == Input(blocks)
  {
    if blocks != [] {
      var last := blocks[|blocks| - 1];
      var (p, frames) := CutAll(size, clock, blocks[..|blocks| - 1]);
      var (rest, more) := Cut(size, clock, p, last.samples, last.time);
      CutAllIsSlicing(size, clock, blocks[..|blocks| - 1]);
      CutIsSlicing(size, clock, p, last.samples, last.time);
      JoinedConcat(frames, more);
      Associative(Joined(frames), Joined(more), rest.samples);
      Associative(Joined(frames), p.samples, last.samples);
    }
  }

  lemma {:induction false} FrameIsSlice(size: nat, frames: seq<AudioFrame>, k: nat)
    requires k < |frames| && forall i :: 0 <= i < |frames| ==> |frames[i].samples| == size
    ensures |Joined(frames)| == |frames| * size && (k + 1) * size <= |frames| * size
    ensures 0 <= k * size <= (k + 1) * size && frames[k].samples == Joined(frames)[k * size..(k + 1) * size]
  {
    var before := frames[..|frames| - 1];
    assert (|frames| - 1) * size + size == |frames| * size;
    if before == [] {
      assert Joined(frames) == frames[0].samples;
    } else if k == |frames| - 1 {
      FrameIsSlice(size, before, 0);
    } else {
      FrameIsSlice(size, before, k);
    }
  }

  /** The samples k * size to (k + 1) * size of the input. */
  ghost predicate IsSlice(samples: seq<real>, input: seq<real>, k: nat, size: nat) {
    0 <= k * size <= (k + 1) * size <= |input| && samples == input[k * size..(k + 1) * size]
  }

  lemma CountOfSlices(length: nat, count: nat, size: nat, rest: nat)
    requires size > 0 && rest < size && length == count * size + rest
    ensures count == length / size
  {
    assert (count + 1) * size == count * size + size;
    QuotientIs(length, size, count);
  }

  /** Whatever the block boundaries and the clock: frame k is the k-th slice of the input, and there are as many
      frames as fit. */
  lemma FramesAreInputSlices(size: nat, clock: Clock, blocks: seq<Block>)
    requires size > 0
    ensures var frames := CutAll(size, clock, blocks).1;
            && |frames| == |Input(blocks)| / size
            && forall k :: 0 <= k < |frames| ==> IsSlice(frames[k].samples, Input(blocks), k, size)
  {
    var (rest, frames) := CutAll(size, clock, blocks);
    CutAllIsSlicing(size, clock, blocks);
    forall k | 0 <= k < |frames|
      ensures IsSlice(frames[k].samples, Input(blocks), k, size)
    {
      FrameIsSlice(size, frames, k);
    }
    if frames != [] {
      FrameIsSlice(size, frames, 0);
    }
    CountOfSlices(|Input(blocks)|, |frames|, size, |rest.samples|);
  }

  /** The whole capture path: the ring has seen exactly the slices of the input, unless a frame is smaller than the
      initial working buffer; then every frame was refused and the encoder gets nothing. */
  method CaptureBlocks(frameSize: nat, channels: nat, blocks: seq<Block>) returns (capturer: Capturer)
    requires frameSize > 0 && channels > 0 && frameSize * channels > 0
    ensures capturer.Valid()
    ensures var size := frameSize * channels;
            var frames := CutAll(size, HostClock(Channels(size, frameSize, channels)), blocks).1;
            capturer.ring.Value() == if INITIAL_BUFFER <= size then PushedAll(Ring([], 0), frames) else Ring([], 0)
  {
    capturer := new Capturer(frameSize, channels);
    ghost var size, clock := capturer.samplesPerFrame, capturer.clock;
    for i := 0 to |blocks|
      invariant capturer.Valid() && fresh(capturer)
      invariant fresh(capturer.currentFrameBuffer) && fresh(capturer.ring)
      invariant fresh(capturer.ring.frames) && fresh(capturer.ring.timestamps)
      invariant capturer.samplesPerFrame == size && capturer.clock == clock
      invariant capturer.currentFrameBuffer.Length > size <==> INITIAL_BUFFER > size
      invariant capturer.Value() == CutAll(size, clock, blocks[..i]).0
      invariant capturer.ring.Value() ==
                if INITIAL_BUFFER <= size then PushedAll(Ring([], 0), CutAll(size, clock, blocks[..i]).1)
                else Ring([], 0)
    {
      ghost var (p, frames) := CutAll(size, clock, blocks[..i]);
      assert blocks[..i + 1][..i] == blocks[..i];
      capturer.ProcessAudioFrame(blocks[i].samples, blocks[i].time);
      PushedAllConcat(Ring([], 0), frames, Cut(size, clock, p, blocks[i].samples, blocks[i].time).1);
    }
    assert blocks[..|blocks|] == blocks;
  }
}
