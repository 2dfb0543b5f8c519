/**
 The capture hand-off: a capped pool of copy textures shared by the frame-arrived callback, a
 drop-oldest queue and the single encode consumer. Each section under the queue lock is one atomic
 step; steps of the producer and the consumer interleave freely.
 */
module CapturePool {
  import opened Common

  /** Width, height and pixel format: what a texture must match to be reused. */
  datatype Desc = Desc(width: nat, height: nat, format: nat)

  datatype Texture = Texture(id: nat, desc: Desc)

  /** A captured frame: its number, the texture it was copied to and its presentation timestamp. */
  datatype Frame = Frame(sequenceNumber: int, texture: Texture, stamp: int)

  /** Frame counters; `overwriteDrops`, `backpressureSkips` and `outOfOrder` are the host's own metrics. */
  datatype Ledger = Ledger(
    enqueued: nat,
    failedAcquisitions: nat,
    overwriteDrops: nat,
    backpressureSkips: nat,
    initSkips: nat,
    offered: nat,
    outOfOrder: nat)

  datatype Pool = Pool(
    free: seq<Texture>,
    queue: seq<Frame>,
    allocations: nat,
    producer: Option<Frame>,
    consumer: Option<Frame>,
    nextTextureId: nat,
    nextSequence: int,
    lastProcessed: int,
    taken: seq<int>,
    ledger: Ledger)

  const EMPTY := Pool([], [], 0, None, None, 0, 0, -1, [], Ledger(0, 0, 0, 0, 0, 0, 0))

  /** The smallest pool that capture starts with. */
  function PoolSize(configured: int, maxQueued: nat): nat {
    var clamped := if configured < 2 then 2 else if configured > 32 then 32 else configured;
    if clamped > maxQueued + 1 then clamped else maxQueued + 1
  }

  // ---------------------------------------------------------------------------------------------
  // The locked sections
  // ---------------------------------------------------------------------------------------------

  predicate HasMatch(free: seq<Texture>, desc: Desc) {
    exists i :: 0 <= i < |free| && free[i].desc == desc
  }

  /** The position of the first texture that matches, or the length when there is none. */
  function FirstMatch(free: seq<Texture>, desc: Desc): (i: nat)
    ensures i <= |free|
    ensures forall j :: 0 <= j < i ==> free[j].desc != desc
    ensures i < |free| ==> free[i].desc == desc
    ensures i < |free| <==> HasMatch(free, desc)
  {
    if free == [] then 0
    else if free[0].desc == desc then 0
    else
      var i := 1 + FirstMatch(free[1..], desc);
      assert i < |free| ==> free[i].desc == desc;
      i
  }

  function Minus(a: nat, b: nat): nat {
    if a >= b then a - b else 0
  }

  function Created(p: Pool, poolSize: nat, desc: Desc, creationWorks: bool): (Pool, Option<Texture>) {
    if p.allocations >= poolSize || !creationWorks then (p, None)
    else (p.(allocations := p.allocations + 1, nextTextureId := p.nextTextureId + 1),
          Some(Texture(p.nextTextureId, desc)))
  }

  /** A matching free texture, else the oldest queued frame's texture when the cap is reached, else a new one. Free
      textures that do not match are discarded on the way. */
  function Acquired(p: Pool, poolSize: nat, desc: Desc, creationWorks: bool): (Pool, Option<Texture>) {
    var i := FirstMatch(p.free, desc);
    if i < |p.free| then (p.(free := p.free[..i] + p.free[i + 1..]), Some(p.free[i]))
    else
      var purged := p.(free := [], allocations := Minus(p.allocations, |p.free|));
      if purged.allocations >= poolSize && purged.queue != [] then
        var reclaimed := purged.(
          queue := purged.queue[1..],
          ledger := purged.ledger.(overwriteDrops := purged.ledger.overwriteDrops + 1));
        if purged.queue[0].texture.desc == desc then (reclaimed, Some(purged.queue[0].texture))
        else Created(reclaimed.(allocations := Minus(purged.allocations, 1)), poolSize, desc, creationWorks)
      else Created(purged, poolSize, desc, creationWorks)
  }

  /** The callback numbers a frame and looks for a texture to copy it to. */
  function Arrived(p: Pool, poolSize: nat, desc: Desc, creationWorks: bool, stamp: int): Pool {
    var numbered := p.(nextSequence := p.nextSequence + 1);
    var (q, texture) := Acquired(numbered, poolSize, desc, creationWorks);
    if texture.Some? then q.(producer := Some(Frame(p.nextSequence, texture.value, stamp)))
    else q.(ledger := q.ledger.(
      overwriteDrops := q.ledger.overwriteDrops + 1,
      failedAcquisitions := q.ledger.failedAcquisitions + 1))
  }

  function Textures(frames: seq<Frame>): seq<Texture> {
    seq(|frames|, i requires 0 <= i < |frames| => frames[i].texture)
  }

  /** How many of the oldest frames leave before one more fits. */
  function Excess(length: nat, maxQueued: nat): nat
    requires maxQueued > 0
  {
    if length >= maxQueued then length - maxQueued + 1 else 0
  }

  /** The copied frame joins the queue; the oldest frames make room. */
  function Queued(p: Pool, maxQueued: nat): Pool
    requires maxQueued > 0 && p.producer.Some?
  {
    var n := Excess(|p.queue|, maxQueued);
    p.(producer := None,
    free := p.free + Textures(p.queue[..n]),
    queue := p.queue[n..] + [p.producer.value],
    ledger := p.ledger.(enqueued := p.ledger.enqueued + 1, overwriteDrops := p.ledger.overwriteDrops + n))
  }

  /** The consumer takes the newest frame and returns the older ones. */
  function Taken(p: Pool): Pool
    requires p.queue != []
  {
    var last := |p.queue| - 1;
    p.(consumer := Some(p.queue[last]),
    free := p.free + Textures(p.queue[..last]),
    queue := [],
    taken := p.taken + [p.queue[last].sequenceNumber],
    ledger := p.ledger.(backpressureSkips := p.ledger.backpressureSkips + last))
  }

  datatype Outcome = Stale | InitSkipped | QualityDropped | Offered

  /** The consumer is done with its frame and gives the texture back. */
  function Finished(p: Pool, outcome: Outcome): Pool
    requires p.consumer.Some?
  {
    var frame := p.consumer.value;
    var late := !outcome.Stale? && p.lastProcessed >= 0 && frame.sequenceNumber <= p.lastProcessed;
    p.(consumer := None,
    free := p.free + [frame.texture],
    lastProcessed := if outcome.Stale? || late then p.lastProcessed else frame.sequenceNumber,
    ledger := p.ledger.(
      backpressureSkips := p.ledger.backpressureSkips + (if outcome.Stale? || outcome.QualityDropped? then 1 else 0),
      initSkips := p.ledger.initSkips + (if outcome.InitSkipped? then 1 else 0),
      offered := p.ledger.offered + (if outcome.Offered? then 1 else 0),
      outOfOrder := p.ledger.outOfOrder + (if late then 1 else 0)))
  }

  // ---------------------------------------------------------------------------------------------
  // The code
  // ---------------------------------------------------------------------------------------------

  class Capture {
    const copyPoolSize: nat
    const maxQueuedFrames: nat
    var freeTextures: seq<Texture>
    var frameQueue: seq<Frame>
    var allocatedTextures: nat
    var overwriteDrops: nat
    var backpressureSkips: nat
    var outOfOrder: nat
    var frameSequenceCounter: int
    var lastProcessedSeq: int
    // The frame in the callback's hands and the frame in the consumer's hands.
    var producerHand: Option<Frame>
    var consumerHand: Option<Frame>
    var nextTextureId: nat
    ghost var taken: seq<int>
    ghost var enqueued: nat
    ghost var failedAcquisitions: nat
    ghost var initSkips: nat
    ghost var offered: nat

    constructor (configuredPoolSize: int, maxDepth: int)
      ensures maxQueuedFrames == if maxDepth < 1 then 1 else maxDepth
      ensures copyPoolSize == PoolSize(configuredPoolSize, maxQueuedFrames)
      ensures Value() == EMPTY
    {
      var depth := if maxDepth < 1 then 1 else maxDepth;
      maxQueuedFrames := depth;
      copyPoolSize := PoolSize(configuredPoolSize, depth);
      freeTextures, frameQueue, allocatedTextures := [], [], 0;
      overwriteDrops, backpressureSkips, outOfOrder := 0, 0, 0;
      frameSequenceCounter, lastProcessedSeq := 0, -1;
      producerHand, consumerHand, nextTextureId := None, None, 0;
      taken, enqueued, failedAcquisitions, initSkips, offered := [], 0, 0, 0, 0;
    }

    ghost function Value(): Pool
      reads this
    {
      Pool(freeTextures, frameQueue, allocatedTextures, producerHand, consumerHand, nextTextureId,
           frameSequenceCounter, lastProcessedSeq, taken,
           Ledger(enqueued, failedAcquisitions, overwriteDrops, backpressureSkips, initSkips, offered, outOfOrder))
    }

    method AcquireCopyTextureLocked(desc: Desc, creationWorks: bool) returns (texture: Option<Texture>)
      modifies this`freeTextures, this`frameQueue, this`allocatedTextures, this`overwriteDrops, this`nextTextureId
      ensures (Value(), texture) == Acquired(old(Value()), copyPoolSize, desc, creationWorks)
    {
      var matching := 0;
      while matching < |freeTextures| && freeTextures[matching].desc != desc
        invariant 0 <= matching <= |freeTextures|
        invariant forall j :: 0 <= j < matching ==> freeTextures[j].desc != desc
      {
        matching := matching + 1;
      }
      if matching < |freeTextures| {
        texture := Some(freeTextures[matching]);
        freeTextures := freeTextures[..matching] + freeTextures[matching + 1..];
        return;
      }
      var it := 0;
      while it < |freeTextures|
        modifies this`freeTextures, this`allocatedTextures
        invariant it == 0 && |freeTextures| <= |old(freeTextures)|
        invariant freeTextures == old(freeTextures)[|old(freeTextures)| - |freeTextures|..]
        invariant allocatedTextures == Minus(old(allocatedTextures), |old(freeTextures)| - |freeTextures|)
        decreases |freeTextures| - it
      {
        if freeTextures[it].desc != desc {
          freeTextures := freeTextures[..it] + freeTextures[it + 1..];
          if allocatedTextures > 0 {
            allocatedTextures := allocatedTextures - 1;
          }
        } else {
          it := it + 1;
        }
      }
      if allocatedTextures >= copyPoolSize && frameQueue != [] {
        var oldest := frameQueue[0].texture;
        frameQueue := frameQueue[1..];
        overwriteDrops := overwriteDrops + 1;
        if oldest.desc == desc {
          return Some(oldest);
        }
        allocatedTextures := Minus(allocatedTextures, 1);
      }
      if allocatedTextures >= copyPoolSize {
        return None;
      }
      if !creationWorks {
        return None;
      }
      texture := Some(Texture(nextTextureId, desc));
      nextTextureId := nextTextureId + 1;
      allocatedTextures := allocatedTextures + 1;
    }

    method OnFrameSelected(desc: Desc, creationWorks: bool, stamp: int)
      requires producerHand.None?
      modifies this
      ensures Value() == Arrived(old(Value()), copyPoolSize, desc, creationWorks, stamp)
    {
      var sequenceNumber := frameSequenceCounter;
      frameSequenceCounter := frameSequenceCounter + 1;
      var texture := AcquireCopyTextureLocked(desc, creationWorks);
      if texture.None? {
        overwriteDrops := overwriteDrops + 1;
        failedAcquisitions := failedAcquisitions + 1;
        return;
      }
      producerHand := Some(Frame(sequenceNumber, texture.value, stamp));
    }

    method OnCopyDone()
      requires maxQueuedFrames > 0 && producerHand.Some?
      modifies this
      ensures Value() == Queued(old(Value()), maxQueuedFrames)
    {
      var dropped := DropOldest(maxQueuedFrames - 1);
      overwriteDrops := overwriteDrops + dropped;
      frameQueue := frameQueue + [producerHand.value];
      producerHand := None;
      enqueued := enqueued + 1;
    }

    /** Returns the oldest frames' textures until no more than `left` frames are queued. */
    method DropOldest(left: nat) returns (dropped: nat)
      modifies this`frameQueue, this`freeTextures
      ensures dropped == Minus(|old(frameQueue)|, left)
      ensures frameQueue == old(frameQueue)[dropped..]
      ensures freeTextures == old(freeTextures) + Textures(old(frameQueue)[..dropped])
    {
      dropped := 0;
      ghost var queue := frameQueue;
      while |frameQueue| > left
        invariant 0 <= dropped <= Minus(|queue|, left)
        invariant frameQueue == queue[dropped..]
        invariant freeTextures == old(freeTextures) + Textures(queue[..dropped])
        decreases |frameQueue|
      {
        var oldest := frameQueue[0];
        frameQueue := frameQueue[1..];
        freeTextures := freeTextures + [oldest.texture];
        assert Textures(queue[..dropped + 1]) == Textures(queue[..dropped]) + [oldest.texture];
        dropped := dropped + 1;
      }
    }

    method ConsumerTake()
      requires consumerHand.None? && frameQueue != []
      modifies this
      ensures Value() == Taken(old(Value()))
    {
      var dropped := DropOldest(1);
      backpressureSkips := backpressureSkips + dropped;
      consumerHand := Some(frameQueue[0]);
      frameQueue := frameQueue[1..];
      taken := taken + [consumerHand.value.sequenceNumber];
    }

    method ConsumerFinish(outcome: Outcome)
      requires consumerHand.Some?
      modifies this
      ensures Value() == Finished(old(Value()), outcome)
    {
      var job := consumerHand.value;
      consumerHand := None;
      freeTextures := freeTextures + [job.texture];
      if outcome.Stale? {
        backpressureSkips := backpressureSkips + 1;
        return;
      }
      if lastProcessedSeq >= 0 && job.sequenceNumber <= lastProcessedSeq {
        outOfOrder := outOfOrder + 1;
      } else {
        lastProcessedSeq := job.sequenceNumber;
      }
      match outcome
      case InitSkipped => initSkips := initSkips + 1;
      case QualityDropped => backpressureSkips := backpressureSkips + 1;
      case Offered => offered := offered + 1;
    }
  }

  // ---------------------------------------------------------------------------------------------
  // Runs
  // ---------------------------------------------------------------------------------------------

  datatype Action =
    | FrameLost
    | FrameSelected(desc: Desc, creationWorks: bool, stamp: int)
    | CopyDone
    | Take
    | Finish(outcome: Outcome)

  predicate Enabled(p: Pool, action: Action) {
    match action
    case FrameLost => p.producer.None?
    case FrameSelected(_, _, _) => p.producer.None?
    case CopyDone => p.producer.Some?
    case Take => p.consumer.None? && p.queue != []
    case Finish(_) => p.consumer.Some?
  }

  function Next(p: Pool, poolSize: nat, maxQueued: nat, action: Action): Pool
    requires maxQueued > 0 && Enabled(p, action)
  {
    match action
    // The frame was numbered but its surface had no texture.
    case FrameLost => p.(nextSequence := p.nextSequence + 1)
    case FrameSelected(desc, creationWorks, stamp) => Arrived(p, poolSize, desc, creationWorks, stamp)
    case CopyDone => Queued(p, maxQueued)
    case Take => Taken(p)
    case Finish(outcome) => Finished(p, outcome)
  }

  ghost predicate Reaches(from: Pool, poolSize: nat, maxQueued: nat, actions: seq<Action>, to: Pool)
    requires maxQueued > 0
    decreases |actions|
  {
    if actions == [] then from == to
    else
      Enabled(from, actions[0]) &&
      Reaches(Next(from, poolSize, maxQueued, actions[0]), poolSize, maxQueued, actions[1..], to)
  }

  // ---------------------------------------------------------------------------------------------
  // Every texture is in one place
  // ---------------------------------------------------------------------------------------------

  /** How often a texture occurs in a list. */
  function Count(textures: seq<Texture>, id: nat): nat {
    if textures == [] then 0
    else Count(textures[..|textures| - 1], id) + (if textures[|textures| - 1].id == id then 1 else 0)
  }

  function CountHand(hand: Option<Frame>, id: nat): nat {
    if hand.Some? && hand.value.texture.id == id then 1 else 0
  }

  /** How often a texture occurs in the free list, the queue and both hands together. */
  function Places(p: Pool, id: nat): nat {
    Count(p.free, id) + Count(Textures(p.queue), id) + CountHand(p.producer, id) + CountHand(p.consumer, id)
  }

  function Held(hand: Option<Frame>): nat {
    if hand.Some? then 1 else 0
  }

  /** Every live texture is in exactly one of the four places, their number is the allocation count, and that count
      respects the cap. Ids from `nextTextureId` on are not live yet. */
  ghost predicate Owned(p: Pool, poolSize: nat) {
    && (forall id: nat :: Places(p, id) <= if id < p.nextTextureId then 1 else 0)
    && p.allocations == |p.free| + |p.queue| + Held(p.producer) + Held(p.consumer)
    && p.allocations <= poolSize
  }

  lemma {:induction false} CountConcat(a: seq<Texture>, b: seq<Texture>, id: nat)
    ensures Count(a + b, id) == Count(a, id) + Count(b, id)
  {
    if b == [] {
      assert a + b == a;
    } else {
      CountConcat(a, b[..|b| - 1], id);
      assert (a + b)[..|a + b| - 1] == a + b[..|b| - 1];
    }
  }

  lemma CountOne(t: Texture, id: nat)
    ensures Count([t], id) == if t.id == id then 1 else 0
  {
    assert [t][..0] == [];
  }

  lemma CountSplit(queue: seq<Frame>, n: nat, id: nat)
    requires n <= |queue|
    ensures Count(Textures(queue), id) == Count(Textures(queue[..n]), id) + Count(Textures(queue[n..]), id)
  {
    assert Textures(queue) == Textures(queue[..n]) + Textures(queue[n..]);
    CountConcat(Textures(queue[..n]), Textures(queue[n..]), id);
  }

  lemma CountHead(queue: seq<Frame>, id: nat)
    requires queue != []
    ensures Count(Textures(queue), id)
            == (if queue[0].texture.id == id then 1 else 0) + Count(Textures(queue[1..]), id)
  {
    CountSplit(queue, 1, id);
    CountOne(queue[0].texture, id);
    assert Textures(queue[..1]) == [queue[0].texture];
  }

  lemma CountLast(queue: seq<Frame>, id: nat)
    requires queue != []
    ensures var last := |queue| - 1;
            Count(Textures(queue), id)
            == Count(Textures(queue[..last]), id) + (if queue[last].texture.id == id then 1 else 0)
  {
    assert Textures(queue)[..|queue| - 1] == Textures(queue[..|queue| - 1]);
  }

  /** Acquisition hands out a texture that is in no place any more. */
  lemma AcquireKeepsOwned(p: Pool, poolSize: nat, desc: Desc, creationWorks: bool)
    requires Owned(p, poolSize) && p.producer.None?
    ensures var (q, texture) := Acquired(p, poolSize, desc, creationWorks);
            && q.producer == p.producer && q.consumer == p.consumer
            && q.allocations == |q.free| + |q.queue| + (if texture.Some? then 1 else 0) + Held(q.consumer)
            && q.allocations <= poolSize
            && forall id: nat :: Places(q, id) + (if texture.Some? && texture.value.id == id then 1 else 0)
                                 <= if id < q.nextTextureId then 1 else 0
  {
    var (q, texture) := Acquired(p, poolSize, desc, creationWorks);
    var i := FirstMatch(p.free, desc);
    forall id: nat
      ensures Places(q, id) + (if texture.Some? && texture.value.id == id then 1 else 0)
              <= if id < q.nextTextureId then 1 else 0
    {
      assert Places(p, id) <= if id < p.nextTextureId then 1 else 0;
      if i < |p.free| {
        assert p.free == p.free[..i] + [p.free[i]] + p.free[i + 1..];
        CountConcat(p.free[..i] + [p.free[i]], p.free[i + 1..], id);
        CountConcat(p.free[..i], [p.free[i]], id);
        CountOne(p.free[i], id);
        CountConcat(p.free[..i], p.free[i + 1..], id);
      } else if p.queue != [] {
        CountHead(p.queue, id);
      }
    }
  }

  /** The state after acquisition, with the texture in the producer's hand. */
  function WithHand(p: Pool, hand: Option<Frame>, ledger: Ledger): Pool {
    p.(producer := hand, ledger := ledger)
  }

  lemma HandKeepsOwned(p: Pool, poolSize: nat, hand: Option<Frame>, ledger: Ledger)
    requires p.producer.None? && p.allocations == |p.free| + |p.queue| + Held(hand) + Held(p.consumer) <= poolSize
    requires forall id: nat :: Places(p, id) + CountHand(hand, id) <= if id < p.nextTextureId then 1 else 0
    ensures Owned(WithHand(p, hand, ledger), poolSize)
  {
    forall id: nat
      ensures Places(WithHand(p, hand, ledger), id) == Places(p, id) + CountHand(hand, id)
    {
    }
  }

  lemma ArriveKeepsOwned(p: Pool, poolSize: nat, desc: Desc, creationWorks: bool, stamp: int)
    requires Owned(p, poolSize) && p.producer.None?
    ensures Owned(Arrived(p, poolSize, desc, creationWorks, stamp), poolSize)
  {
    var numbered := p.(nextSequence := p.nextSequence + 1);
    assert forall id: nat :: Places(numbered, id) == Places(p, id);
    AcquireKeepsOwned(numbered, poolSize, desc, creationWorks);
    AcquiredArrives(p, poolSize, desc, creationWorks, stamp);
  }

  lemma AcquiredArrives(p: Pool, poolSize: nat, desc: Desc, creationWorks: bool, stamp: int)
    requires p.producer.None?
    requires var (q, texture) := Acquired(p.(nextSequence := p.nextSequence + 1), poolSize, desc, creationWorks);
             && q.producer.None?
             && q.allocations == |q.free| + |q.queue| + (if texture.Some? then 1 else 0) + Held(q.consumer) <= poolSize
             && forall id: nat :: Places(q, id) + (if texture.Some? && texture.value.id == id then 1 else 0)
                                  <= if id < q.nextTextureId then 1 else 0
    ensures Owned(Arrived(p, poolSize, desc, creationWorks, stamp), poolSize)
  {
    var (q, texture) := Acquired(p.(nextSequence := p.nextSequence + 1), poolSize, desc, creationWorks);
    var end := Arrived(p, poolSize, desc, creationWorks, stamp);
    HandKeepsOwned(q, poolSize, end.producer, end.ledger);
    assert end == WithHand(q, end.producer, end.ledger);
  }

  lemma QueueKeepsOwned(p: Pool, poolSize: nat, maxQueued: nat)
    requires maxQueued > 0 && Owned(p, poolSize) && p.producer.Some?
    ensures Owned(Queued(p, maxQueued), poolSize)
  {
    var q := Queued(p, maxQueued);
    var n := Excess(|p.queue|, maxQueued);
    forall id: nat
      ensures Places(q, id) <= if id < q.nextTextureId then 1 else 0
    {
      assert Places(p, id) <= if id < p.nextTextureId then 1 else 0;
      CountSplit(p.queue, n, id);
      CountConcat(p.free, Textures(p.queue[..n]), id);
      CountLast(q.queue, id);
      assert q.queue[..|q.queue| - 1] == p.queue[n..];
    }
  }

  lemma TakeKeepsOwned(p: Pool, poolSize: nat)
    requires Owned(p, poolSize) && p.consumer.None? && p.queue != []
    ensures Owned(Taken(p), poolSize)
  {
    var q := Taken(p);
    forall id: nat
      ensures Places(q, id) <= if id < q.nextTextureId then 1 else 0
    {
      assert Places(p, id) <= if id < p.nextTextureId then 1 else 0;
      CountLast(p.queue, id);
      CountConcat(p.free, Textures(p.queue[..|p.queue| - 1]), id);
    }
  }

  lemma FinishKeepsOwned(p: Pool, poolSize: nat, outcome: Outcome)
    requires Owned(p, poolSize) && p.consumer.Some?
    ensures Owned(Finished(p, outcome), poolSize)
  {
    var q := Finished(p, outcome);
    forall id: nat
      ensures Places(q, id) <= if id < q.nextTextureId then 1 else 0
    {
      assert Places(p, id) <= if id < p.nextTextureId then 1 else 0;
      CountConcat(p.free, [p.consumer.value.texture], id);
      CountOne(p.consumer.value.texture, id);
    }
  }

  lemma StepKeepsOwned(p: Pool, poolSize: nat, maxQueued: nat, action: Action)
    requires maxQueued > 0 && Owned(p, poolSize) && Enabled(p, action)
    ensures Owned(Next(p, poolSize, maxQueued, action), poolSize)
  {
    match action {
      case FrameLost =>
        assert forall id: nat :: Places(Next(p, poolSize, maxQueued, action), id) == Places(p, id);
      case FrameSelected(desc, creationWorks, stamp) => ArriveKeepsOwned(p, poolSize, desc, creationWorks, stamp);
      case CopyDone => QueueKeepsOwned(p, poolSize, maxQueued);
      case Take => TakeKeepsOwned(p, poolSize);
      case Finish(outcome) => FinishKeepsOwned(p, poolSize, outcome);
    }
  }

  // ---------------------------------------------------------------------------------------------
  // Every frame is accounted for, in order
  // ---------------------------------------------------------------------------------------------

  /** Frames that were enqueued or found no texture are dropped, skipped, offered to the encoder, queued or in hand. */
  predicate Balanced(p: Pool) {
    p.ledger.enqueued + p.ledger.failedAcquisitions
    == p.ledger.overwriteDrops + p.ledger.backpressureSkips + p.ledger.initSkips + p.ledger.offered
       + |p.queue| + Held(p.consumer)
  }

  ghost predicate Increasing(s: seq<int>) {
    forall i, j :: 0 <= i < j < |s| ==> s[i] < s[j]
  }

  /** The newest number the consumer has seen. */
  function LastTaken(p: Pool): int {
    if p.taken == [] then -1 else p.taken[|p.taken| - 1]
  }

  /** Sequence numbers grow along: processed, taken, queued, in the producer's hand, next. */
  ghost predicate InOrder(p: Pool) {
    && Increasing(p.taken)
    && (forall i, j :: 0 <= i < j < |p.queue| ==> p.queue[i].sequenceNumber < p.queue[j].sequenceNumber)
    && (forall i :: 0 <= i < |p.queue| ==> LastTaken(p) < p.queue[i].sequenceNumber < p.nextSequence)
    && (p.producer.Some? ==>
      && LastTaken(p) < p.producer.value.sequenceNumber < p.nextSequence
      && forall i :: 0 <= i < |p.queue| ==> p.queue[i].sequenceNumber < p.producer.value.sequenceNumber)
    && -1 <= p.lastProcessed <= LastTaken(p) < p.nextSequence
    && (p.consumer.Some? ==> p.lastProcessed < p.consumer.value.sequenceNumber == LastTaken(p))
    && p.ledger.outOfOrder == 0
  }

  /** Acquisition touches the queue only to reclaim its oldest frame, which it counts as dropped. */
  lemma AcquireReclaimsAtMostOne(p: Pool, poolSize: nat, desc: Desc, creationWorks: bool)
    ensures var q := Acquired(p, poolSize, desc, creationWorks).0;
            exists n: nat :: n <= 1 && n <= |p.queue| &&
              q == p.(free := q.free, allocations := q.allocations, nextTextureId := q.nextTextureId,
                      queue := p.queue[n..],
                      ledger := p.ledger.(overwriteDrops := p.ledger.overwriteDrops + n))
  {
    var q := Acquired(p, poolSize, desc, creationWorks).0;
    var n := |p.queue| - |q.queue|;
    assert p.queue[0..] == p.queue;
    assert q == p.(free := q.free, allocations := q.allocations, nextTextureId := q.nextTextureId,
                   queue := p.queue[n..], ledger := p.ledger.(overwriteDrops := p.ledger.overwriteDrops + n));
  }

  /** The fields that order and balance do not look at. */
  predicate SameButTextures(p: Pool, q: Pool) {
    q == p.(free := q.free, allocations := q.allocations, nextTextureId := q.nextTextureId)
  }

  lemma ReclaimKeepsOrder(p: Pool, n: nat, hand: Option<Frame>) returns (q: Pool)
    requires n <= |p.queue| && InOrder(p) && Balanced(p) && p.producer.None?
    requires hand.Some? ==> hand.value.sequenceNumber == p.nextSequence
    ensures q == p.(
              nextSequence := p.nextSequence + 1, producer := hand, queue := p.queue[n..],
              ledger := p.ledger.(
                overwriteDrops := p.ledger.overwriteDrops + n + (1 - Held(hand)),
                failedAcquisitions := p.ledger.failedAcquisitions + (1 - Held(hand))))
    ensures InOrder(q) && Balanced(q)
  {
    q := p.(nextSequence := p.nextSequence + 1, producer := hand, queue := p.queue[n..],
            ledger := p.ledger.(
              overwriteDrops := p.ledger.overwriteDrops + n + (1 - Held(hand)),
              failedAcquisitions := p.ledger.failedAcquisitions + (1 - Held(hand))));
    assert forall i :: 0 <= i < |q.queue| ==> q.queue[i] == p.queue[i + n];
  }

  lemma ArrivedKeepsOrder(p: Pool, poolSize: nat, desc: Desc, creationWorks: bool, stamp: int)
    requires InOrder(p) && Balanced(p) && p.producer.None?
    ensures var q := Arrived(p, poolSize, desc, creationWorks, stamp); InOrder(q) && Balanced(q)
  {
    var q := Arrived(p, poolSize, desc, creationWorks, stamp);
    var n := ArrivedShape(p, poolSize, desc, creationWorks, stamp);
    var r := ReclaimKeepsOrder(p, n, q.producer);
    assert SameButTextures(r, q);
  }

  lemma ArrivedShape(p: Pool, poolSize: nat, desc: Desc, creationWorks: bool, stamp: int) returns (n: nat)
    requires p.producer.None?
    ensures n <= |p.queue|
    ensures var q := Arrived(p, poolSize, desc, creationWorks, stamp);
            && (q.producer.Some? ==> q.producer.value.sequenceNumber == p.nextSequence)
            && SameButTextures(
                 p.(nextSequence := p.nextSequence + 1, producer := q.producer, queue := p.queue[n..],
                    ledger := p.ledger.(
                      overwriteDrops := p.ledger.overwriteDrops + n + (1 - Held(q.producer)),
                      failedAcquisitions := p.ledger.failedAcquisitions + (1 - Held(q.producer)))),
                 q)
  {
    var numbered := p.(nextSequence := p.nextSequence + 1);
    AcquireReclaimsAtMostOne(numbered, poolSize, desc, creationWorks);
    n := |p.queue| - |Acquired(numbered, poolSize, desc, creationWorks).0.queue|;
  }

  lemma QueuedKeepsOrder(p: Pool, maxQueued: nat)
    requires maxQueued > 0 && InOrder(p) && Balanced(p) && p.producer.Some?
    ensures InOrder(Queued(p, maxQueued)) && Balanced(Queued(p, maxQueued))
  {
    var q := Queued(p, maxQueued);
    var n := Excess(|p.queue|, maxQueued);
    assert forall i :: 0 <= i < |q.queue| - 1 ==> q.queue[i] == p.queue[i + n];
  }

  lemma TakenKeepsOrder(p: Pool)
    requires InOrder(p) && Balanced(p) && p.consumer.None? && p.queue != []
    ensures InOrder(Taken(p)) && Balanced(Taken(p))
  {
    var last := p.queue[|p.queue| - 1].sequenceNumber;
    assert Increasing(p.taken + [last]) by {
      assert forall i :: 0 <= i < |p.taken| ==> p.taken[i] <= LastTaken(p);
    }
  }

  lemma FinishedKeepsOrder(p: Pool, outcome: Outcome)
    requires InOrder(p) && Balanced(p) && p.consumer.Some?
    ensures InOrder(Finished(p, outcome)) && Balanced(Finished(p, outcome))
  {
  }

  lemma StepKeepsOrder(p: Pool, poolSize: nat, maxQueued: nat, action: Action)
    requires maxQueued > 0 && InOrder(p) && Balanced(p) && Enabled(p, action)
    ensures var q := Next(p, poolSize, maxQueued, action); InOrder(q) && Balanced(q)
  {
    match action {
      case FrameLost =>
      case FrameSelected(desc, creationWorks, stamp) => ArrivedKeepsOrder(p, poolSize, desc, creationWorks, stamp);
      case CopyDone => QueuedKeepsOrder(p, maxQueued);
      case Take => TakenKeepsOrder(p);
      case Finish(outcome) => FinishedKeepsOrder(p, outcome);
    }
  }

  // ---------------------------------------------------------------------------------------------
  // The main results
  // ---------------------------------------------------------------------------------------------

  ghost predicate Sound(p: Pool, poolSize: nat) {
    Owned(p, poolSize) && InOrder(p) && Balanced(p)
  }

  lemma {:induction false} RunKeepsSound(from: Pool, poolSize: nat, maxQueued: nat, actions: seq<Action>, to: Pool)
    requires poolSize > 0 && maxQueued > 0 && Sound(from, poolSize)
    requires Reaches(from, poolSize, maxQueued, actions, to)
    ensures Sound(to, poolSize)
    decreases |actions|
  {
    if actions != [] {
      StepKeepsOwned(from, poolSize, maxQueued, actions[0]);
      StepKeepsOrder(from, poolSize, maxQueued, actions[0]);
      RunKeepsSound(Next(from, poolSize, maxQueued, actions[0]), poolSize, maxQueued, actions[1..], to);
    }
  }

  /** In every reachable state each live texture is in exactly one place and the cap holds, the frames add up, the
      consumer saw strictly increasing sequence numbers and never counted one out of order. */
  lemma CaptureIsSound(poolSize: nat, maxQueued: nat, actions: seq<Action>, to: Pool)
    requires poolSize > 0 && maxQueued > 0
    requires Reaches(EMPTY, poolSize, maxQueued, actions, to)
    ensures Owned(to, poolSize) && Balanced(to) && Increasing(to.taken) && to.ledger.outOfOrder == 0
  {
    RunKeepsSound(EMPTY, poolSize, maxQueued, actions, to);
  }

  /** With at least two textures the callback never goes without one, whatever sizes the source had before, as long as
      textures can be created. */
  lemma AcquisitionNeverStarves(poolSize: nat, maxQueued: nat, actions: seq<Action>, to: Pool, desc: Desc)
    requires poolSize >= 2 && maxQueued > 0
    requires Reaches(EMPTY, poolSize, maxQueued, actions, to) && to.producer.None?
    ensures Acquired(to, poolSize, desc, true).1.Some?
    ensures Acquired(to, poolSize, desc, true).1.value.desc == desc
  {
    RunKeepsSound(EMPTY, poolSize, maxQueued, actions, to);
  }
}
