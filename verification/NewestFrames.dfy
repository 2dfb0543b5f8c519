/**
 What the bounded hand-off of captured frames prefers: the newest ones. The queue holds the frames copied last, the
 consumer gets the last of them, and a frame only gives way when the queue or the pool is full.
 */
module NewestFrames {
  import opened Common
  import opened CapturePool

  // ---------------------------------------------------------------------------------------------
  // The history of copied frames
  // ---------------------------------------------------------------------------------------------

  /** The frames copied so far, in order. */
  function Copied(p: Pool, copied: seq<Frame>, action: Action): seq<Frame> {
    if action.CopyDone? && p.producer.Some? then copied + [p.producer.value] else copied
  }

  ghost function AllCopied(from: Pool, copied: seq<Frame>, poolSize: nat, maxQueued: nat, actions: seq<Action>)
    : seq<Frame>
    requires maxQueued > 0
    decreases |actions|
  {
    if actions == [] || !Enabled(from, actions[0]) then copied
    else
      AllCopied(Next(from, poolSize, maxQueued, actions[0]), Copied(from, copied, actions[0]), poolSize, maxQueued,
                actions[1..])
  }

  predicate EndOf<T(==)>(all: seq<T>, end: seq<T>) {
    |end| <= |all| && end == all[|all| - |end|..]
  }

  /** The queue is the end of the history. */
  predicate HoldsNewest(p: Pool, copied: seq<Frame>, maxQueued: nat) {
    |p.queue| <= maxQueued && EndOf(copied, p.queue)
  }

  lemma EndOfEnd<T>(all: seq<T>, end: seq<T>, n: nat)
    requires EndOf(all, end) && n <= |end|
    ensures EndOf(all, end[n..])
  {
  }

  lemma EndGrows<T>(all: seq<T>, end: seq<T>, element: T)
    requires EndOf(all, end)
    ensures EndOf(all + [element], end + [element])
  {
  }

  lemma SelectionHoldsNewest(p: Pool, copied: seq<Frame>, poolSize: nat, maxQueued: nat, desc: Desc,
                             creationWorks: bool, stamp: int)
    requires HoldsNewest(p, copied, maxQueued) && p.producer.None?
    ensures HoldsNewest(Arrived(p, poolSize, desc, creationWorks, stamp), copied, maxQueued)
  {
    var n := ArrivedShape(p, poolSize, desc, creationWorks, stamp);
    EndOfEnd(copied, p.queue, n);
  }

  lemma CopyHoldsNewest(p: Pool, copied: seq<Frame>, maxQueued: nat)
    requires maxQueued > 0 && HoldsNewest(p, copied, maxQueued) && p.producer.Some?
    ensures HoldsNewest(Queued(p, maxQueued), copied + [p.producer.value], maxQueued)
  {
    var n := Excess(|p.queue|, maxQueued);
    EndOfEnd(copied, p.queue, n);
    EndGrows(copied, p.queue[n..], p.producer.value);
  }

  lemma StepHoldsNewest(p: Pool, copied: seq<Frame>, poolSize: nat, maxQueued: nat, action: Action)
    requires maxQueued > 0 && HoldsNewest(p, copied, maxQueued) && Enabled(p, action)
    ensures HoldsNewest(Next(p, poolSize, maxQueued, action), Copied(p, copied, action), maxQueued)
  {
    if action.FrameSelected? {
      SelectionHoldsNewest(p, copied, poolSize, maxQueued, action.desc, action.creationWorks, action.stamp);
    } else if action.CopyDone? {
      CopyHoldsNewest(p, copied, maxQueued);
    } else if action.Take? {
      assert EndOf(copied, []);
    }
  }

  lemma {:induction false} RunHoldsNewest(from: Pool, copied: seq<Frame>, poolSize: nat, maxQueued: nat,
                                          actions: seq<Action>, to: Pool)
    requires maxQueued > 0 && HoldsNewest(from, copied, maxQueued)
    requires Reaches(from, poolSize, maxQueued, actions, to)
    ensures HoldsNewest(to, AllCopied(from, copied, poolSize, maxQueued, actions), maxQueued)
    decreases |actions|
  {
    if actions != [] {
      StepHoldsNewest(from, copied, poolSize, maxQueued, actions[0]);
      RunHoldsNewest(Next(from, poolSize, maxQueued, actions[0]), Copied(from, copied, actions[0]), poolSize, maxQueued,
                     actions[1..], to);
    }
  }

  /** In every reachable state the queue holds the frames copied last, at most `maxQueued` of them. */
  lemma QueueHoldsNewest(poolSize: nat, maxQueued: nat, actions: seq<Action>, to: Pool)
    requires maxQueued > 0 && Reaches(EMPTY, poolSize, maxQueued, actions, to)
    ensures HoldsNewest(to, AllCopied(EMPTY, [], poolSize, maxQueued, actions), maxQueued)
  {
    RunHoldsNewest(EMPTY, [], poolSize, maxQueued, actions, to);
  }

  // ---------------------------------------------------------------------------------------------
  // The consumer
  // ---------------------------------------------------------------------------------------------

  /** The textures of the frames were appended, in order. */
  predicate Returned(before: seq<Texture>, frames: seq<Frame>, after: seq<Texture>) {
    && |after| == |before| + |frames| && after[..|before|] == before
    && forall i :: 0 <= i < |frames| ==> after[|before| + i] == frames[i].texture
  }

  /** In every reachable state: the consumer takes the frame copied last, which has the greatest number of those
      queued; the queue is empty afterwards, the textures of the other frames are free, and each of these is counted
      as skipped. */
  lemma ConsumerTakesNewest(poolSize: nat, maxQueued: nat, actions: seq<Action>, p: Pool)
    requires poolSize > 0 && maxQueued > 0 && Reaches(EMPTY, poolSize, maxQueued, actions, p) && Enabled(p, Take)
    ensures var copied := AllCopied(EMPTY, [], poolSize, maxQueued, actions);
            var q := Next(p, poolSize, maxQueued, Take);
            && copied != [] && q.consumer == Some(copied[|copied| - 1])
            && q.queue == []
            && (forall i :: 0 <= i < |p.queue| - 1 ==> p.queue[i].sequenceNumber < q.consumer.value.sequenceNumber)
            && q.consumer.value in p.queue
            && Returned(p.free, p.queue[..|p.queue| - 1], q.free)
            && q.ledger == p.ledger.(backpressureSkips := p.ledger.backpressureSkips + |p.queue| - 1)
  {
    QueueHoldsNewest(poolSize, maxQueued, actions, p);
    LastIsNewest(p.queue, AllCopied(EMPTY, [], poolSize, maxQueued, actions));
    RunKeepsSound(EMPTY, poolSize, maxQueued, actions, p);
    TakeReturnsOthers(p, poolSize, maxQueued);
  }

  lemma LastIsNewest(queue: seq<Frame>, copied: seq<Frame>)
    requires queue != [] && EndOf(copied, queue)
    ensures queue[|queue| - 1] == copied[|copied| - 1]
  {
  }

  lemma TakeReturnsOthers(p: Pool, poolSize: nat, maxQueued: nat)
    requires maxQueued > 0 && Enabled(p, Take)
    ensures var q := Next(p, poolSize, maxQueued, Take);
            && q.consumer == Some(p.queue[|p.queue| - 1]) && q.queue == []
            && Returned(p.free, p.queue[..|p.queue| - 1], q.free)
            && q.ledger == p.ledger.(backpressureSkips := p.ledger.backpressureSkips + |p.queue| - 1)
  {
  }

  /** The frame in hand goes: its texture is free again, and its number is noted as processed unless it was stale. */
  lemma FinishReturnsTexture(poolSize: nat, maxQueued: nat, actions: seq<Action>, p: Pool, outcome: Outcome)
    requires poolSize > 0 && maxQueued > 0 && Reaches(EMPTY, poolSize, maxQueued, actions, p) && p.consumer.Some?
    ensures var q := Next(p, poolSize, maxQueued, Finish(outcome));
            && q.consumer == None && q.queue == p.queue && Returned(p.free, [p.consumer.value], q.free)
            && q.lastProcessed == if outcome == Stale then p.lastProcessed else p.consumer.value.sequenceNumber
  {
    RunKeepsSound(EMPTY, poolSize, maxQueued, actions, p);
  }

  // ---------------------------------------------------------------------------------------------
  // The producer
  // ---------------------------------------------------------------------------------------------

  /** A copied frame becomes the last one queued. The queue keeps as many as fit of those before it, and these are the
      newest; the others are dropped, counted and their textures are free. */
  lemma CopiedFrameDropsOldest(p: Pool, poolSize: nat, maxQueued: nat)
    requires maxQueued > 0 && Enabled(p, CopyDone) && |p.queue| <= maxQueued
    ensures var q := Next(p, poolSize, maxQueued, CopyDone);
            var dropped := if |p.queue| < maxQueued then 0 else 1;
            && q.producer == None
            && q.queue == p.queue[dropped..] + [p.producer.value]
            && Returned(p.free, p.queue[..dropped], q.free)
            && q.ledger == p.ledger.(enqueued := p.ledger.enqueued + 1,
                                     overwriteDrops := p.ledger.overwriteDrops + dropped)
  {
  }

  /** The textures that are queued or in the consumer's hand. */
  function Busy(p: Pool): nat {
    |p.queue| + if p.consumer.Some? then 1 else 0
  }

  predicate Fits(p: Pool, desc: Desc) {
    exists i :: 0 <= i < |p.free| && p.free[i].desc == desc
  }

  /** A free texture that fits is used, and no frame gives way. */
  predicate UsesFree(p: Pool, q: Pool, desc: Desc) {
    && q.producer.Some? && q.producer.value.texture in p.free && q.producer.value.texture.desc == desc
    && |q.free| == |p.free| - 1 && q.queue == p.queue && q.nextTextureId == p.nextTextureId && q.ledger == p.ledger
  }

  /** No free texture fits, and none is left; `gaveWay` of the oldest frames are dropped. */
  predicate UsesOther(p: Pool, q: Pool, desc: Desc, gaveWay: nat, reused: bool, created: bool)
    requires gaveWay <= |p.queue| && (reused ==> p.queue != [])
  {
    && q.free == [] && q.queue == p.queue[gaveWay..]
    && q.producer.Some? == (reused || created)
    && (q.producer.Some? ==> q.producer.value.texture.desc == desc)
    && (reused ==> q.producer.value.texture == p.queue[0].texture)
    && (created ==> q.producer.value.texture.id == p.nextTextureId)
    && q.nextTextureId == p.nextTextureId + (if created then 1 else 0)
    && q.ledger == p.ledger.(
         overwriteDrops := p.ledger.overwriteDrops + gaveWay + (if q.producer.Some? then 0 else 1),
         failedAcquisitions := p.ledger.failedAcquisitions + (if q.producer.Some? then 0 else 1))
  }

  lemma FitIsUsed(p: Pool, poolSize: nat, desc: Desc, creationWorks: bool, stamp: int)
    requires Fits(p, desc) && p.producer.None?
    ensures UsesFree(p, Arrived(p, poolSize, desc, creationWorks, stamp), desc)
  {
    assert HasMatch(p.free, desc);
  }

  lemma OldestGivesWay(p: Pool, poolSize: nat, desc: Desc, creationWorks: bool, stamp: int)
    requires !Fits(p, desc) && p.producer.None? && p.allocations == |p.free| + Busy(p) <= poolSize
    ensures var gaveWay := if Busy(p) == poolSize && p.queue != [] then 1 else 0;
            var reused := gaveWay == 1 && p.queue[0].texture.desc == desc;
            var created := !reused && Busy(p) - gaveWay < poolSize && creationWorks;
            UsesOther(p, Arrived(p, poolSize, desc, creationWorks, stamp), desc, gaveWay, reused, created)
  {
    assert !HasMatch(p.free, desc);
    assert p.queue[0..] == p.queue;
  }

  /** In every reachable state: a free texture that fits is used and no frame gives way. Otherwise, as long as the pool
      has room besides the busy textures, a new one is created. Only when all are busy the oldest queued frame gives way
      and counts as dropped; it hands on its texture if that fits. A frame without a texture counts as dropped. */
  lemma FramesGiveWayOnlyWhenFull(poolSize: nat, maxQueued: nat, actions: seq<Action>, p: Pool, desc: Desc,
                                  creationWorks: bool, stamp: int)
    requires poolSize > 0 && maxQueued > 0 && Reaches(EMPTY, poolSize, maxQueued, actions, p)
    requires p.producer.None?
    ensures var q := Next(p, poolSize, maxQueued, FrameSelected(desc, creationWorks, stamp));
            var gaveWay := if Busy(p) == poolSize && p.queue != [] then 1 else 0;
            var reused := gaveWay == 1 && p.queue[0].texture.desc == desc;
            var created := !reused && Busy(p) - gaveWay < poolSize && creationWorks;
            && q.consumer == p.consumer && q.nextSequence == p.nextSequence + 1
            && (q.producer.Some? ==> q.producer.value == Frame(p.nextSequence, q.producer.value.texture, stamp))
            && Busy(p) <= poolSize
            && if Fits(p, desc) then UsesFree(p, q, desc) else UsesOther(p, q, desc, gaveWay, reused, created)
  {
    RunKeepsSound(EMPTY, poolSize, maxQueued, actions, p);
    if Fits(p, desc) {
      FitIsUsed(p, poolSize, desc, creationWorks, stamp);
    } else {
      OldestGivesWay(p, poolSize, desc, creationWorks, stamp);
    }
  }

  /** The pool has the configured number of textures, if that is 2 to 32 and one more than the queue can hold. */
  lemma PoolFollowsConfiguration(configured: int, maxQueued: nat)
    ensures var size := PoolSize(configured, maxQueued);
            && size >= 2 && size >= maxQueued + 1
            && (maxQueued + 1 <= configured && 2 <= configured <= 32 ==> size == configured)
            && (maxQueued + 1 <= 2 && configured < 2 ==> size == 2)
            && (maxQueued + 1 <= 32 && configured > 32 ==> size == 32)
            && (maxQueued + 1 >= 32 || (maxQueued >= 1 && configured <= maxQueued + 1) ==> size == maxQueued + 1)
  {
  }

  /** With the pool that capture starts with, a queued frame gives way to another size only when the queue is full
      and the consumer has a frame. */
  lemma QueueGivesWayOnlyWhenFull(configured: int, maxQueued: nat, actions: seq<Action>, p: Pool, desc: Desc,
                                  creationWorks: bool, stamp: int)
    requires maxQueued > 0
    requires Reaches(EMPTY, PoolSize(configured, maxQueued), maxQueued, actions, p) && p.producer.None?
    requires |p.queue| < maxQueued || p.consumer.None?
    ensures Next(p, PoolSize(configured, maxQueued), maxQueued, FrameSelected(desc, creationWorks, stamp)).queue
            == p.queue
  {
    var poolSize := PoolSize(configured, maxQueued);
    QueueHoldsNewest(poolSize, maxQueued, actions, p);
    FramesGiveWayOnlyWhenFull(poolSize, maxQueued, actions, p, desc, creationWorks, stamp);
    assert p.queue[0..] == p.queue;
  }

  // ---------------------------------------------------------------------------------------------
  // The counters
  // ---------------------------------------------------------------------------------------------

  function Finishes(actions: seq<Action>, outcome: Outcome): nat {
    if actions == [] then 0
    else Finishes(actions[1..], outcome) + (if actions[0] == Finish(outcome) then 1 else 0)
  }

  /** The frames passed over when the consumer took a newer one. */
  ghost function PassedOver(from: Pool, poolSize: nat, maxQueued: nat, actions: seq<Action>): nat
    requires maxQueued > 0
    decreases |actions|
  {
    if actions == [] || !Enabled(from, actions[0]) then 0
    else
      PassedOver(Next(from, poolSize, maxQueued, actions[0]), poolSize, maxQueued, actions[1..])
      + if actions[0].Take? then |from.queue| - 1 else 0
  }

  lemma StepCounts(p: Pool, poolSize: nat, maxQueued: nat, action: Action)
    requires maxQueued > 0 && Enabled(p, action)
    ensures var q := Next(p, poolSize, maxQueued, action);
            && q.ledger.offered == p.ledger.offered + (if action == Finish(Offered) then 1 else 0)
            && q.ledger.initSkips == p.ledger.initSkips + (if action == Finish(InitSkipped) then 1 else 0)
            && q.ledger.enqueued == p.ledger.enqueued + (if action.CopyDone? then 1 else 0)
            && q.ledger.backpressureSkips
               == p.ledger.backpressureSkips
                  + (if action == Finish(Stale) || action == Finish(QualityDropped) then 1 else 0)
                  + if action.Take? then |p.queue| - 1 else 0
  {
    if action.FrameSelected? {
      var _ := ArrivedShape(p, poolSize, action.desc, action.creationWorks, action.stamp);
    }
  }

  /** Over every run each counter of the consumer is the number of frames with that outcome. */
  lemma {:induction false} CountersCountOutcomes(from: Pool, poolSize: nat, maxQueued: nat, actions: seq<Action>,
                                                 to: Pool)
    requires maxQueued > 0 && Reaches(from, poolSize, maxQueued, actions, to)
    ensures to.ledger.offered == from.ledger.offered + Finishes(actions, Offered)
    ensures to.ledger.initSkips == from.ledger.initSkips + Finishes(actions, InitSkipped)
    ensures to.ledger.backpressureSkips
            == from.ledger.backpressureSkips + Finishes(actions, Stale) + Finishes(actions, QualityDropped)
               + PassedOver(from, poolSize, maxQueued, actions)
    decreases |actions|
  {
    if actions != [] {
      StepCounts(from, poolSize, maxQueued, actions[0]);
      CountersCountOutcomes(Next(from, poolSize, maxQueued, actions[0]), poolSize, maxQueued, actions[1..], to);
    }
  }
}
