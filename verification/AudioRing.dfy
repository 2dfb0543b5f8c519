/**
 The capture ring between the audio capturer and its encoder: three frame slots that keep the newest audio.
 */
module AudioRing {

  const RING_BUFFER_SIZE: nat := 3

  datatype AudioFrame = AudioFrame(samples: seq<real>, timestamp: int)

  /** The frames held, oldest first, and how many were dropped for newer ones. */
  datatype Ring = Ring(held: seq<AudioFrame>, dropped: nat)

  function Pushed(r: Ring, frame: AudioFrame): Ring {
    if |r.held| >= RING_BUFFER_SIZE then Ring(r.held[1..] + [frame], r.dropped + 1)
    else Ring(r.held + [frame], r.dropped)
  }

  function PushedAll(r: Ring, frames: seq<AudioFrame>): Ring
    decreases |frames|
  {
    if frames == [] then r else PushedAll(Pushed(r, frames[0]), frames[1..])
  }

  lemma PushedAllFirst(r: Ring, frame: AudioFrame, frames: seq<AudioFrame>)
    ensures PushedAll(r, [frame] + frames) == PushedAll(Pushed(r, frame), frames)
  {
    assert ([frame] + frames)[1..] == frames;
  }

  lemma {:induction false} PushedAllConcat(r: Ring, a: seq<AudioFrame>, b: seq<AudioFrame>)
    ensures PushedAll(r, a + b) == PushedAll(PushedAll(r, a), b)
    decreases |a|
  {
    if a == [] {
      assert a + b == b;
    } else {
      PushedAllConcat(Pushed(r, a[0]), a[1..], b);
      assert (a + b)[1..] == a[1..] + b;
    }
  }

  class RingBuffer {
    const frames: array<seq<real>>
    const timestamps: array<int>
    const samplesPerFrame: nat
    var writeIndex: nat
    var readIndex: nat
    var count: nat
    var droppedCaptureFrames: nat

    ghost predicate Valid()
      reads this, frames, timestamps
    {
      && frames.Length == RING_BUFFER_SIZE && timestamps.Length == RING_BUFFER_SIZE
      && writeIndex < RING_BUFFER_SIZE && readIndex < RING_BUFFER_SIZE && count <= RING_BUFFER_SIZE
      && writeIndex == (readIndex + count) % RING_BUFFER_SIZE
      && (forall i :: 0 <= i < RING_BUFFER_SIZE ==> |frames[i]| == samplesPerFrame)
    }

    /** The frame i places behind the oldest one. */
    ghost function At(i: nat): AudioFrame
      requires Valid()
      reads this, frames, timestamps
    {
      AudioFrame(frames[(readIndex + i) % RING_BUFFER_SIZE], timestamps[(readIndex + i) % RING_BUFFER_SIZE])
    }

    ghost function Value(): Ring
      requires Valid()
      reads this, frames, timestamps
    {
      Ring(
        if count == 0 then []
        else if count == 1 then [At(0)]
        else if count == 2 then [At(0), At(1)]
        else [At(0), At(1), At(2)],
        droppedCaptureFrames)
    }

    constructor (samplesPerFrame: nat)
      ensures Valid() && fresh(frames) && fresh(timestamps)
      ensures this.samplesPerFrame == samplesPerFrame && Value() == Ring([], 0)
    {
      this.samplesPerFrame := samplesPerFrame;
      var silence := seq(samplesPerFrame, _ => 0.0);
      frames := new seq<real>[RING_BUFFER_SIZE](_ => silence);
      timestamps := new int[RING_BUFFER_SIZE](_ => 0);
      writeIndex, readIndex, count, droppedCaptureFrames := 0, 0, 0, 0;
    }

    /** A frame larger than a slot is refused; a smaller one leaves the rest of the slot as it was. */
    method Push(frame: seq<real>, timestamp: int) returns (ok: bool)
      requires Valid()
      modifies this, frames, timestamps
      ensures Valid()
      ensures ok <==> |frame| <= samplesPerFrame
      ensures !ok ==> Value() == old(Value())
      ensures |frame| == samplesPerFrame ==> Value() == Pushed(old(Value()), AudioFrame(frame, timestamp))
      ensures ok ==> exists slot ::
                && frame <= slot && |slot| == samplesPerFrame
                && Value() == Pushed(old(Value()), AudioFrame(slot, timestamp))
    {
      if |frame| > |frames[writeIndex]| {
        return false;
      }
      if count >= RING_BUFFER_SIZE {
        DropOldest();
      }
      ghost var slot := Append(frame, timestamp);
      assert |frame| == samplesPerFrame ==> slot == frame;
      return true;
    }

    method DropOldest()
      requires Valid() && count == RING_BUFFER_SIZE
      modifies this`readIndex, this`count, this`droppedCaptureFrames
      ensures Valid() && count == RING_BUFFER_SIZE - 1
      ensures Value() == Ring(old(Value()).held[1..], old(Value()).dropped + 1)
    {
      readIndex := (readIndex + 1) % RING_BUFFER_SIZE;
      count := count - 1;
      droppedCaptureFrames := droppedCaptureFrames + 1;
    }

    method Append(frame: seq<real>, timestamp: int) returns (ghost slot: seq<real>)
      requires Valid() && count < RING_BUFFER_SIZE && |frame| <= samplesPerFrame
      modifies this`writeIndex, this`count, frames, timestamps
      ensures Valid()
      ensures frame <= slot && |slot| == samplesPerFrame
      ensures Value() == Ring(old(Value()).held + [AudioFrame(slot, timestamp)], old(Value()).dropped)
    {
      slot := frame + frames[writeIndex][|frame|..];
      frames[writeIndex] := frame + frames[writeIndex][|frame|..];
      timestamps[writeIndex] := timestamp;
      writeIndex := (writeIndex + 1) % RING_BUFFER_SIZE;
      count := count + 1;
    }

    method Pop() returns (ok: bool, frame: seq<real>, timestamp: int)
      requires Valid()
      modifies this
      ensures Valid()
      ensures ok <==> old(Value()).held != []
      ensures !ok ==> Value() == old(Value())
      ensures ok ==>
                && Value() == Ring(old(Value()).held[1..], old(Value()).dropped)
                && AudioFrame(frame, timestamp) == old(Value()).held[0]
    {
      if count == 0 {
        return false, [], 0;
      }
      frame := frames[readIndex];
      timestamp := timestamps[readIndex];
      readIndex := (readIndex + 1) % RING_BUFFER_SIZE;
      count := count - 1;
      ok := true;
    }
  }

  // ---------------------------------------------------------------------------------------------
  // What the encoder gets over a whole run
  // ---------------------------------------------------------------------------------------------

  datatype Action = Push(frame: AudioFrame) | Pop

  /** A run so far: the ring, every frame pushed, and the positions of the frames popped among those pushed. */
  datatype History = History(ring: Ring, pushed: seq<AudioFrame>, popped: seq<AudioFrame>)

  const SILENT := History(Ring([], 0), [], [])

  function Next(h: History, action: Action): History {
    match action
    case Push(frame) => History(Pushed(h.ring, frame), h.pushed + [frame], h.popped)
    case Pop =>
      if h.ring.held == [] then h
      else History(Ring(h.ring.held[1..], h.ring.dropped), h.pushed, h.popped + [h.ring.held[0]])
  }

  function After(actions: seq<Action>): History {
    if actions == [] then SILENT else Next(After(actions[..|actions| - 1]), actions[|actions| - 1])
  }

  /** The popped frames are the pushed frames at the given increasing positions. */
  ghost predicate Selects(pushed: seq<AudioFrame>, positions: seq<nat>, popped: seq<AudioFrame>) {
    && |positions| == |popped|
    && (forall k :: 0 <= k < |positions| ==> positions[k] < |pushed| && popped[k] == pushed[positions[k]])
    && (forall k, l :: 0 <= k < l < |positions| ==> positions[k] < positions[l])
  }

  ghost predicate Newest(h: History, positions: seq<nat>) {
    && |h.ring.held| <= RING_BUFFER_SIZE
    && |h.pushed| == |h.popped| + h.ring.dropped + |h.ring.held|
    && h.ring.held == h.pushed[|h.pushed| - |h.ring.held|..]
    && Selects(h.pushed, positions, h.popped)
    && forall k :: 0 <= k < |positions| ==> positions[k] < |h.pushed| - |h.ring.held|
  }

  lemma PushKeepsNewest(h: History, positions: seq<nat>, frame: AudioFrame)
    requires Newest(h, positions)
    ensures Newest(Next(h, Push(frame)), positions)
  {
    var next := Next(h, Push(frame));
    var from := |next.pushed| - |next.ring.held|;
    assert next.ring.held == next.pushed[from..];
  }

  lemma PopKeepsNewest(h: History, positions: seq<nat>) returns (after: seq<nat>)
    requires Newest(h, positions)
    ensures Newest(Next(h, Pop), after)
  {
    after := positions;
    if h.ring.held != [] {
      assert h.ring.held[0] == h.pushed[|h.pushed| - |h.ring.held|];
      after := positions + [|h.pushed| - |h.ring.held|];
    }
  }

  /** The encoder gets an in-order selection of the frames pushed; none is popped twice; the ring holds the newest
      frames, at most three of them; and every frame pushed is popped, dropped or held. */
  lemma {:induction false} RingKeepsTheNewest(actions: seq<Action>) returns (positions: seq<nat>)
    ensures Newest(After(actions), positions)
  {
    if actions == [] {
      positions := [];
    } else {
      var before := After(actions[..|actions| - 1]);
      var last := actions[|actions| - 1];
      positions := RingKeepsTheNewest(actions[..|actions| - 1]);
      match last {
        case Push(frame) => PushKeepsNewest(before, positions, frame);
        case Pop =>
          positions := PopKeepsNewest(before, positions);
      }
    }
  }
}
