/**
 The video path from source frames to the encoder: the pacer keeps and stamps frames, the pool and the queue
 lose some of them, and the encoder sends the others with durations made from their stamps.
 */
module MediaPath {
  import opened Common
  import opened Division
  import opened FramePacer
  import opened SampleDurations
  import Pool = CapturePool

  /** What a kept frame comes with: no surface, a surface without a texture, or a texture to copy. */
  datatype Surface = NoSurface | NoTexture | Copied(desc: Pool.Desc, creationWorks: bool)

  datatype Action =
    | Arrival(source: Source, surface: Surface)
    | CopyDone
    | Take
    // The consumer opens the encoder again before it goes on with the frame in its hands.
    | Reopen(fps: int)
    | Finish(outcome: Pool.Outcome)

  /** What the encoder sends for one frame: whether it was opened since the frame before, its nominal frame time, and
      the duration of the sample. */
  datatype Sample = Sample(reopened: bool, nominal: int, duration: int)

  /** `justOpened` until a frame is offered after an opening. */
  datatype Encoder = Encoder(pacing: Pacing, nominal: int, justOpened: bool, samples: seq<Sample>)

  /** The source frames so far, the pacer, the pool, which source frame has which sequence number, the frames offered
      to the encoder, and the encoder with its samples. */
  datatype Media = Media(sources: seq<Source>, schedule: Schedule, pool: Pool.Pool, numbered: seq<nat>,
                         offered: seq<Pool.Frame>, encoder: Encoder)

  const START := Media([], UNSET, Pool.EMPTY, [], [], Encoder(Pacing(0, 0), NominalDuration(60, 1), true, []))

  /** Opening the encoder, successfully or not, forgets the last timestamp and the last duration. */
  function Reopened(e: Encoder, fps: int): Encoder {
    e.(pacing := Pacing(0, 0), nominal := NominalDuration(fps, 1), justOpened := true)
  }

  function Encoded(e: Encoder, stamp: int): Encoder {
    var (pacing, duration) := Paced(e.pacing, stamp, e.nominal);
    Encoder(pacing, e.nominal, false, e.samples + [Sample(e.justOpened, e.nominal, duration)])
  }

  predicate Enabled(m: Media, action: Action) {
    match action
    case Arrival(_, _) => m.pool.producer.None?
    case CopyDone => Pool.Enabled(m.pool, Pool.CopyDone)
    case Take => Pool.Enabled(m.pool, Pool.Take)
    case Reopen(_) => m.pool.consumer.Some?
    case Finish(outcome) => Pool.Enabled(m.pool, Pool.Finish(outcome))
  }

  /** The callback on one source frame. */
  function Arrived(m: Media, poolSize: nat, maxQueued: nat, source: Source, surface: Surface): Media
    requires maxQueued > 0 && m.pool.producer.None?
  {
    var (schedule, stamp) := Selected(m.schedule, source.targetFps, source.time, 0);
    var paced := m.(sources := m.sources + [source], schedule := schedule);
    if stamp.None? || surface.NoSurface? then paced
    else
      var action := if surface.NoTexture? then Pool.FrameLost
                    else Pool.FrameSelected(surface.desc, surface.creationWorks, stamp.value);
      paced.(pool := Pool.Next(m.pool, poolSize, maxQueued, action), numbered := m.numbered + [|m.sources|])
  }

  function Next(m: Media, poolSize: nat, maxQueued: nat, action: Action): Media
    requires maxQueued > 0 && Enabled(m, action)
  {
    match action
    case Arrival(source, surface) => Arrived(m, poolSize, maxQueued, source, surface)
    case CopyDone => m.(pool := Pool.Next(m.pool, poolSize, maxQueued, Pool.CopyDone))
    case Take => m.(pool := Pool.Next(m.pool, poolSize, maxQueued, Pool.Take))
    case Reopen(fps) => m.(encoder := Reopened(m.encoder, fps))
    case Finish(outcome) =>
      var done := m.(pool := Pool.Next(m.pool, poolSize, maxQueued, Pool.Finish(outcome)));
      if outcome.Offered? then
        done.(offered := m.offered + [m.pool.consumer.value],
              encoder := Encoded(m.encoder, m.pool.consumer.value.stamp))
      else done
  }

  ghost predicate Reaches(from: Media, poolSize: nat, maxQueued: nat, actions: seq<Action>, to: Media)
    requires maxQueued > 0
    decreases |actions|
  {
    if actions == [] then from == to
    else
      Enabled(from, actions[0]) &&
      Reaches(Next(from, poolSize, maxQueued, actions[0]), poolSize, maxQueued, actions[1..], to)
  }

  // ---------------------------------------------------------------------------------------------
  // The invariant
  // ---------------------------------------------------------------------------------------------

  /** The numbers belong to kept source frames, in order. */
  ghost predicate Numbered(sources: seq<Source>, numbered: seq<nat>) {
    Survivors(sources, numbered)
  }

  /** A frame carries the stamp of the source frame that has its number. */
  predicate Carries(sources: seq<Source>, numbered: seq<nat>, f: Pool.Frame) {
    && 0 <= f.sequenceNumber < |numbered| && numbered[f.sequenceNumber] < |sources|
    && Stamp(sources, numbered[f.sequenceNumber]) == Some(f.stamp)
  }

  ghost predicate AllCarry(sources: seq<Source>, numbered: seq<nat>, frames: seq<Pool.Frame>) {
    forall i :: 0 <= i < |frames| ==> Carries(sources, numbered, frames[i])
  }

  ghost predicate PoolCarries(sources: seq<Source>, numbered: seq<nat>, p: Pool.Pool) {
    && AllCarry(sources, numbered, p.queue)
    && (p.producer.Some? ==> Carries(sources, numbered, p.producer.value))
    && (p.consumer.Some? ==> Carries(sources, numbered, p.consumer.value))
  }

  /** The offered frames are in order, none is newer than the last one taken, and the one in hand is newer than all. */
  ghost predicate OfferedInOrder(offered: seq<Pool.Frame>, p: Pool.Pool) {
    && (forall i, j :: 0 <= i < j < |offered| ==> offered[i].sequenceNumber < offered[j].sequenceNumber)
    && (forall i :: 0 <= i < |offered| ==> offered[i].sequenceNumber <= Pool.LastTaken(p))
    && (p.consumer.Some? ==>
          forall i :: 0 <= i < |offered| ==> offered[i].sequenceNumber < p.consumer.value.sequenceNumber)
  }

  ghost predicate Inv(m: Media) {
    && m.schedule == ScheduleAfter(m.sources)
    && Pool.InOrder(m.pool) && Pool.Balanced(m.pool)
    && |m.numbered| == m.pool.nextSequence && Numbered(m.sources, m.numbered)
    && PoolCarries(m.sources, m.numbered, m.pool) && AllCarry(m.sources, m.numbered, m.offered)
    && OfferedInOrder(m.offered, m.pool)
  }

  /** More source frames and more numbers change no stamp. */
  lemma StampStays(sources: seq<Source>, source: Source, i: nat)
    requires i < |sources|
    ensures Stamp(sources + [source], i) == Stamp(sources, i)
  {
    assert (sources + [source])[..i] == sources[..i];
  }

  lemma CarriesStays(sources: seq<Source>, source: Source, numbered: seq<nat>, more: seq<nat>, f: Pool.Frame)
    requires Carries(sources, numbered, f)
    ensures Carries(sources + [source], numbered + more, f)
  {
    StampStays(sources, source, numbered[f.sequenceNumber]);
  }

  lemma AllCarryStays(sources: seq<Source>, source: Source, numbered: seq<nat>, more: seq<nat>, frames: seq<Pool.Frame>)
    requires AllCarry(sources, numbered, frames)
    ensures AllCarry(sources + [source], numbered + more, frames)
  {
    forall i | 0 <= i < |frames|
      ensures Carries(sources + [source], numbered + more, frames[i])
    {
      CarriesStays(sources, source, numbered, more, frames[i]);
    }
  }

  lemma PoolCarriesStays(sources: seq<Source>, source: Source, numbered: seq<nat>, more: seq<nat>, p: Pool.Pool)
    requires PoolCarries(sources, numbered, p)
    ensures PoolCarries(sources + [source], numbered + more, p)
  {
    AllCarryStays(sources, source, numbered, more, p.queue);
    if p.producer.Some? {
      CarriesStays(sources, source, numbered, more, p.producer.value);
    }
    if p.consumer.Some? {
      CarriesStays(sources, source, numbered, more, p.consumer.value);
    }
  }

  lemma NumberedStays(sources: seq<Source>, source: Source, numbered: seq<nat>)
    requires Numbered(sources, numbered)
    ensures Numbered(sources + [source], numbered)
  {
    forall k | 0 <= k < |numbered|
      ensures numbered[k] < |sources + [source]| && Kept(sources + [source], numbered[k])
    {
      StampStays(sources, source, numbered[k]);
    }
  }

  lemma NumberedGrows(sources: seq<Source>, source: Source, numbered: seq<nat>)
    requires Numbered(sources, numbered) && Kept(sources + [source], |sources|)
    ensures Numbered(sources + [source], numbered + [|sources|])
  {
    NumberedStays(sources, source, numbered);
  }

  /** The pacer's decision on the next source frame. */
  lemma NextStamp(sources: seq<Source>, source: Source)
    ensures var (schedule, stamp) := Selected(ScheduleAfter(sources), source.targetFps, source.time, 0);
            && ScheduleAfter(sources + [source]) == schedule
            && Stamp(sources + [source], |sources|) == stamp
  {
    assert (sources + [source])[..|sources|] == sources;
  }

  /** Acquisition only takes frames from the front of the queue, and the frame in the callback's hands is the new
      one. */
  lemma SelectionKeepsFrames(p: Pool.Pool, poolSize: nat, desc: Pool.Desc, creationWorks: bool, stamp: int)
    returns (n: nat)
    requires p.producer.None?
    ensures var q := Pool.Arrived(p, poolSize, desc, creationWorks, stamp);
            && n <= |p.queue| && q.queue == p.queue[n..] && q.consumer == p.consumer && q.taken == p.taken
            && q.nextSequence == p.nextSequence + 1
            && (q.producer.Some? ==>
                  q.producer.value.sequenceNumber == p.nextSequence && q.producer.value.stamp == stamp)
  {
    n := Pool.ArrivedShape(p, poolSize, desc, creationWorks, stamp);
  }

  /** A new number for the pool, with or without a frame. */
  function NumberedPool(p: Pool.Pool, poolSize: nat, surface: Surface, stamp: int): Pool.Pool
    requires !surface.NoSurface?
  {
    if surface.NoTexture? then p.(nextSequence := p.nextSequence + 1)
    else Pool.Arrived(p, poolSize, surface.desc, surface.creationWorks, stamp)
  }

  lemma NumberedPoolInOrder(p: Pool.Pool, poolSize: nat, surface: Surface, stamp: int)
    requires Pool.InOrder(p) && Pool.Balanced(p) && p.producer.None? && !surface.NoSurface?
    ensures var q := NumberedPool(p, poolSize, surface, stamp);
            Pool.InOrder(q) && Pool.Balanced(q) && q.nextSequence == p.nextSequence + 1
  {
    if surface.Copied? {
      Pool.ArrivedKeepsOrder(p, poolSize, surface.desc, surface.creationWorks, stamp);
      var _ := SelectionKeepsFrames(p, poolSize, surface.desc, surface.creationWorks, stamp);
    }
  }

  /** The frames of the pool afterwards are frames it had, and the new one. */
  lemma NumberedPoolCarries(sources: seq<Source>, numbered: seq<nat>, p: Pool.Pool, poolSize: nat, surface: Surface,
                            stamp: int)
    requires PoolCarries(sources, numbered, p) && p.producer.None? && !surface.NoSurface?
    requires 0 <= p.nextSequence < |numbered| && numbered[p.nextSequence] < |sources|
    requires Stamp(sources, numbered[p.nextSequence]) == Some(stamp)
    ensures PoolCarries(sources, numbered, NumberedPool(p, poolSize, surface, stamp))
  {
    if surface.Copied? {
      var n := SelectionKeepsFrames(p, poolSize, surface.desc, surface.creationWorks, stamp);
      AllCarryBehind(sources, numbered, p.queue, n);
    }
  }

  lemma AllCarryBehind(sources: seq<Source>, numbered: seq<nat>, frames: seq<Pool.Frame>, n: nat)
    requires AllCarry(sources, numbered, frames) && n <= |frames|
    ensures AllCarry(sources, numbered, frames[n..])
  {
  }

  lemma NumberedPoolOffered(offered: seq<Pool.Frame>, p: Pool.Pool, poolSize: nat, surface: Surface, stamp: int)
    requires OfferedInOrder(offered, p) && p.producer.None? && !surface.NoSurface?
    ensures OfferedInOrder(offered, NumberedPool(p, poolSize, surface, stamp))
  {
    if surface.Copied? {
      var _ := SelectionKeepsFrames(p, poolSize, surface.desc, surface.creationWorks, stamp);
    }
  }

  lemma ArrivalKeepsInv(m: Media, poolSize: nat, maxQueued: nat, source: Source, surface: Surface)
    requires Inv(m) && maxQueued > 0 && m.pool.producer.None?
    ensures Inv(Arrived(m, poolSize, maxQueued, source, surface))
  {
    NextStamp(m.sources, source);
    var next := Arrived(m, poolSize, maxQueued, source, surface);
    if Stamp(m.sources + [source], |m.sources|).None? || surface.NoSurface? {
      assert m.numbered + [] == m.numbered;
      NumberedStays(m.sources, source, m.numbered);
      PoolCarriesStays(m.sources, source, m.numbered, [], m.pool);
      AllCarryStays(m.sources, source, m.numbered, [], m.offered);
    } else {
      var stamp := Stamp(m.sources + [source], |m.sources|).value;
      NumberedGrows(m.sources, source, m.numbered);
      AllCarryStays(m.sources, source, m.numbered, [|m.sources|], m.offered);
      PoolCarriesStays(m.sources, source, m.numbered, [|m.sources|], m.pool);
      assert next.pool == NumberedPool(m.pool, poolSize, surface, stamp);
      NumberedPoolInOrder(m.pool, poolSize, surface, stamp);
      NumberedPoolCarries(next.sources, next.numbered, m.pool, poolSize, surface, stamp);
      NumberedPoolOffered(m.offered, m.pool, poolSize, surface, stamp);
    }
  }

  lemma QueuedKeepsInv(m: Media, poolSize: nat, maxQueued: nat)
    requires Inv(m) && maxQueued > 0 && Enabled(m, CopyDone)
    ensures Inv(Next(m, poolSize, maxQueued, CopyDone))
  {
    Pool.StepKeepsOrder(m.pool, poolSize, maxQueued, Pool.CopyDone);
    var q := Pool.Queued(m.pool, maxQueued);
    var n := Pool.Excess(|m.pool.queue|, maxQueued);
    assert forall i :: 0 <= i < |q.queue| - 1 ==> q.queue[i] == m.pool.queue[i + n];
  }

  lemma TakenKeepsInv(m: Media, poolSize: nat, maxQueued: nat)
    requires Inv(m) && maxQueued > 0 && Enabled(m, Take)
    ensures Inv(Next(m, poolSize, maxQueued, Take))
  {
    Pool.StepKeepsOrder(m.pool, poolSize, maxQueued, Pool.Take);
  }

  lemma FinishedKeepsInv(m: Media, poolSize: nat, maxQueued: nat, outcome: Pool.Outcome)
    requires Inv(m) && maxQueued > 0 && Enabled(m, Finish(outcome))
    ensures Inv(Next(m, poolSize, maxQueued, Finish(outcome)))
  {
    Pool.StepKeepsOrder(m.pool, poolSize, maxQueued, Pool.Finish(outcome));
    FinishedOffered(m.offered, m.pool, outcome);
    if outcome.Offered? {
      CarryOneMore(m.sources, m.numbered, m.offered, m.pool.consumer.value);
    }
  }

  lemma FinishedOffered(offered: seq<Pool.Frame>, p: Pool.Pool, outcome: Pool.Outcome)
    requires OfferedInOrder(offered, p) && p.consumer.Some? && p.consumer.value.sequenceNumber == Pool.LastTaken(p)
    ensures OfferedInOrder(if outcome.Offered? then offered + [p.consumer.value] else offered,
                           Pool.Finished(p, outcome))
  {
  }

  lemma CarryOneMore(sources: seq<Source>, numbered: seq<nat>, frames: seq<Pool.Frame>, f: Pool.Frame)
    requires AllCarry(sources, numbered, frames) && Carries(sources, numbered, f)
    ensures AllCarry(sources, numbered, frames + [f])
  {
  }

  lemma {:induction false} RunKeepsInv(from: Media, poolSize: nat, maxQueued: nat, actions: seq<Action>, to: Media)
    requires maxQueued > 0 && Inv(from) && Reaches(from, poolSize, maxQueued, actions, to)
    ensures Inv(to)
    decreases |actions|
  {
    if actions != [] {
      match actions[0] {
        case Arrival(source, surface) => ArrivalKeepsInv(from, poolSize, maxQueued, source, surface);
        case CopyDone => QueuedKeepsInv(from, poolSize, maxQueued);
        case Take => TakenKeepsInv(from, poolSize, maxQueued);
        case Reopen(_) =>
        case Finish(outcome) => FinishedKeepsInv(from, poolSize, maxQueued, outcome);
      }
      RunKeepsInv(Next(from, poolSize, maxQueued, actions[0]), poolSize, maxQueued, actions[1..], to);
    }
  }

  // ---------------------------------------------------------------------------------------------
  // The timeline of the encoder
  // ---------------------------------------------------------------------------------------------

  /** The source frames of the offered frames. */
  function Positions(m: Media): (positions: seq<nat>)
    requires forall k :: 0 <= k < |m.offered| ==> 0 <= m.offered[k].sequenceNumber < |m.numbered|
    ensures |positions| == |m.offered|
    ensures forall k :: 0 <= k < |m.offered| ==> positions[k] == m.numbered[m.offered[k].sequenceNumber]
  {
    seq(|m.offered|, k requires 0 <= k < |m.offered| => m.numbered[m.offered[k].sequenceNumber])
  }

  /** The stamps with which frames were offered to the encoder. */
  function OfferedStamps(m: Media): (stamps: seq<int>)
    ensures |stamps| == |m.offered| && forall k :: 0 <= k < |m.offered| ==> stamps[k] == m.offered[k].stamp
  {
    seq(|m.offered|, k requires 0 <= k < |m.offered| => m.offered[k].stamp)
  }

  lemma OfferedAreSurvivors(m: Media)
    requires Inv(m)
    ensures forall k :: 0 <= k < |m.offered| ==> 0 <= m.offered[k].sequenceNumber < |m.numbered|
    ensures Survivors(m.sources, Positions(m)) && Stamps(m.sources, Positions(m)) == OfferedStamps(m)
  {
    assert forall k :: 0 <= k < |m.offered| ==> Carries(m.sources, m.numbered, m.offered[k]);
  }

  /** Whatever is lost between the callback and the encoder, and however the rate changes: the stamps offered to the
      encoder never go back and are never ahead of their source. */
  lemma OfferedStampsNeverGoBack(poolSize: nat, maxQueued: nat, actions: seq<Action>, m: Media, i: nat, j: nat)
    requires maxQueued > 0 && Reaches(START, poolSize, maxQueued, actions, m)
    requires Positive(m.sources) && NonDecreasing(m.sources) && i < j < |m.offered|
    ensures m.offered[i].stamp <= m.offered[j].stamp
    ensures 0 <= m.offered[j].sequenceNumber < |m.numbered|
    ensures m.numbered[m.offered[j].sequenceNumber] < |m.sources|
    ensures m.offered[j].stamp <= m.sources[m.numbered[m.offered[j].sequenceNumber]].time / 10
  {
    RunKeepsInv(START, poolSize, maxQueued, actions, m);
    OfferedAreSurvivors(m);
    var positions := Positions(m);
    StampsNeverGoBack(m.sources, positions[i], positions[j]);
    assert Stamps(m.sources, positions)[i] == m.offered[i].stamp;
    assert Stamps(m.sources, positions)[j] == m.offered[j].stamp;
  }

  lemma OfferedStampsAdvance(m: Media, fps: int, i: nat, j: nat)
    requires Inv(m) && i < j < |m.offered|
    requires Positive(m.sources) && NonDecreasing(m.sources) && FixedRate(m.sources, fps) && Rate(fps) <= 1000
    ensures m.offered[i].stamp < m.offered[j].stamp
  {
    OfferedAreSurvivors(m);
    var positions := Positions(m);
    StampsAdvance(m.sources, fps, positions[i], positions[j]);
    assert Stamps(m.sources, positions)[i] == m.offered[i].stamp;
    assert Stamps(m.sources, positions)[j] == m.offered[j].stamp;
  }

  // ---------------------------------------------------------------------------------------------
  // The samples of the encoder
  // ---------------------------------------------------------------------------------------------

  /** The duration of a frame whose gap cannot be used. */
  function Remembered(e: Encoder): int {
    if e.pacing.smoothed > 0 then e.pacing.smoothed else e.nominal
  }

  /** The first sample after an opening has the nominal duration. Any other has the gap to the frame before it when
      that is plausible, and else the duration of the sample before it. */
  predicate SampleRule(samples: seq<Sample>, offered: seq<Pool.Frame>, k: nat)
    requires |samples| == |offered| && k < |samples|
  {
    && samples[k].nominal <= 1_000_000 && samples[k].duration < 2_000_000
    && if samples[k].reopened then samples[k].duration == samples[k].nominal
       else
         && k > 0
         && (0 < offered[k - 1].stamp && 0 < offered[k].stamp ==>
               samples[k].duration == if Plausible(offered[k].stamp - offered[k - 1].stamp)
                                      then offered[k].stamp - offered[k - 1].stamp
                                      else samples[k - 1].duration)
  }

  /** What the encoder knows after its last sample. */
  predicate Knows(e: Encoder, offered: seq<Pool.Frame>)
    requires |e.samples| == |offered|
  {
    if e.justOpened then e.pacing == Pacing(0, 0)
    else
      var last := |offered| - 1;
      && last >= 0 && Remembered(e) == e.samples[last].duration
      && (offered[last].stamp > 0 ==> e.pacing.lastTimestamp == offered[last].stamp)
  }

  ghost predicate Accounts(e: Encoder, offered: seq<Pool.Frame>) {
    && |e.samples| == |offered| && e.nominal <= 1_000_000
    && Knows(e, offered)
    && forall k :: 0 <= k < |offered| ==> SampleRule(e.samples, offered, k)
  }

  lemma NominalIsShort(fps: int)
    ensures NominalDuration(fps, 1) <= 1_000_000
  {
    if fps > 0 {
      QuotientBounds(1_000_000, fps);
      if 1_000_000 / fps > 1_000_000 {
        MultiplyMonotone(1, fps, 1_000_000 / fps);
      }
    }
  }

  lemma EncodedLast(e: Encoder, offered: seq<Pool.Frame>, frame: Pool.Frame)
    requires Accounts(e, offered)
    ensures var after := Encoded(e, frame.stamp);
            && Knows(after, offered + [frame])
            && SampleRule(after.samples, offered + [frame], |offered|)
  {
    if !e.justOpened {
      assert SampleRule(e.samples, offered, |offered| - 1);
    }
  }

  lemma EncodedKeepsAccounts(e: Encoder, offered: seq<Pool.Frame>, frame: Pool.Frame)
    requires Accounts(e, offered)
    ensures Accounts(Encoded(e, frame.stamp), offered + [frame])
  {
    EncodedLast(e, offered, frame);
    var after := Encoded(e, frame.stamp);
    forall k | 0 <= k < |offered|
      ensures SampleRule(after.samples, offered + [frame], k)
    {
      assert SampleRule(e.samples, offered, k);
    }
  }

  /** Whatever the openings are, each sample follows the rule. */
  lemma {:induction false} RunKeepsAccounts(from: Media, poolSize: nat, maxQueued: nat, actions: seq<Action>, to: Media)
    requires maxQueued > 0 && Accounts(from.encoder, from.offered) && Reaches(from, poolSize, maxQueued, actions, to)
    ensures Accounts(to.encoder, to.offered)
    decreases |actions|
  {
    if actions != [] {
      match actions[0] {
        case Arrival(_, _) =>
        case CopyDone =>
        case Take =>
        case Reopen(fps) => NominalIsShort(fps);
        case Finish(outcome) =>
          if outcome.Offered? {
            EncodedKeepsAccounts(from.encoder, from.offered, from.pool.consumer.value);
          }
      }
      RunKeepsAccounts(Next(from, poolSize, maxQueued, actions[0]), poolSize, maxQueued, actions[1..], to);
    }
  }

  lemma StartAccounts()
    ensures Accounts(START.encoder, START.offered)
  {
    NominalIsShort(60);
  }

  /** The time between an offered frame and the one before it. */
  function Gap(offered: seq<Pool.Frame>, k: nat): int
    requires 0 < k < |offered|
  {
    offered[k].stamp - offered[k - 1].stamp
  }

  /** A sample that does not get the time since the frame before it. */
  predicate Interrupted(m: Media, k: nat)
    requires |m.encoder.samples| == |m.offered| && 0 < k < |m.offered|
  {
    m.encoder.samples[k].reopened || Gap(m.offered, k) >= 2_000_000
  }

  /** The durations of the samples after i up to j together. */
  function Sent(samples: seq<Sample>, i: nat, j: nat): int
    requires i <= j < |samples|
  {
    if i == j then 0 else Sent(samples, i, j - 1) + samples[j].duration
  }

  /** The time lost at sample k: a gap that was replaced by the nominal duration, or by the duration before it. */
  function LostAt(m: Media, k: nat): int
    requires |m.encoder.samples| == |m.offered| && 0 < k < |m.offered|
  {
    if m.encoder.samples[k].reopened then Gap(m.offered, k) - m.encoder.samples[k].nominal
    else if Gap(m.offered, k) >= 2_000_000 then Gap(m.offered, k) - m.encoder.samples[k - 1].duration
    else 0
  }

  function Lost(m: Media, i: nat, j: nat): int
    requires |m.encoder.samples| == |m.offered| && i <= j < |m.offered|
  {
    if i == j then 0 else Lost(m, i, j - 1) + LostAt(m, j)
  }

  /** At a fixed rate no gap is too short to be used. */
  lemma GapsAreLong(m: Media, fps: int, k: nat)
    requires Inv(m) && 0 < k < |m.offered|
    requires Positive(m.sources) && NonDecreasing(m.sources) && FixedRate(m.sources, fps) && Rate(fps) <= 1000
    ensures Gap(m.offered, k) > 500
  {
    OfferedAreSurvivors(m);
    var positions := Positions(m);
    StampsAdvance(m.sources, fps, positions[k - 1], positions[k]);
    assert Stamps(m.sources, positions)[k - 1] == m.offered[k - 1].stamp;
    assert Stamps(m.sources, positions)[k] == m.offered[k].stamp;
    MultiplyMonotone(Rate(fps), 1000, 10_000);
    QuotientAtLeast(TICKS, Rate(fps), 10_000);
  }

  /** A sample is sent with the time since the frame before it exactly when that is less than 2 s and, if the encoder
      was opened in between, happens to be the nominal frame time. */
  lemma SampleIsGapIff(poolSize: nat, maxQueued: nat, actions: seq<Action>, m: Media, fps: int, k: nat)
    requires maxQueued > 0 && Reaches(START, poolSize, maxQueued, actions, m)
    requires Positive(m.sources) && NonDecreasing(m.sources) && FixedRate(m.sources, fps) && Rate(fps) <= 1000
    requires 0 < k < |m.offered| && m.offered[k - 1].stamp > 0
    ensures |m.encoder.samples| == |m.offered|
    ensures var sample := m.encoder.samples[k];
            && sample.duration == Gap(m.offered, k) - LostAt(m, k)
            && (sample.duration == Gap(m.offered, k) <==>
                  if sample.reopened then Gap(m.offered, k) == sample.nominal else Gap(m.offered, k) < 2_000_000)
  {
    RunKeepsInv(START, poolSize, maxQueued, actions, m);
    StartAccounts();
    RunKeepsAccounts(START, poolSize, maxQueued, actions, m);
    GapsAreLong(m, fps, k);
    assert SampleRule(m.encoder.samples, m.offered, k);
    assert SampleRule(m.encoder.samples, m.offered, k - 1);
  }

  lemma {:induction false} SentAddsUp(poolSize: nat, maxQueued: nat, actions: seq<Action>, m: Media, fps: int, i: nat,
                                      j: nat)
    requires maxQueued > 0 && Reaches(START, poolSize, maxQueued, actions, m)
    requires Positive(m.sources) && NonDecreasing(m.sources) && FixedRate(m.sources, fps) && Rate(fps) <= 1000
    requires i <= j < |m.offered| && m.offered[i].stamp > 0
    ensures |m.encoder.samples| == |m.offered|
    ensures m.offered[j].stamp >= m.offered[i].stamp
    ensures Sent(m.encoder.samples, i, j) == m.offered[j].stamp - m.offered[i].stamp - Lost(m, i, j)
  {
    if i < j {
      SentAddsUp(poolSize, maxQueued, actions, m, fps, i, j - 1);
      SampleIsGapIff(poolSize, maxQueued, actions, m, fps, j);
      RunKeepsInv(START, poolSize, maxQueued, actions, m);
      GapsAreLong(m, fps, j);
    } else {
      StartAccounts();
      RunKeepsAccounts(START, poolSize, maxQueued, actions, m);
    }
  }

  lemma {:induction false} NothingLost(m: Media, i: nat, j: nat)
    requires |m.encoder.samples| == |m.offered| && i <= j < |m.offered|
    requires forall k :: i < k <= j ==> !Interrupted(m, k)
    ensures Lost(m, i, j) == 0
  {
    if i < j {
      NothingLost(m, i, j - 1);
      assert !Interrupted(m, j);
    }
  }

  /** At a fixed rate of up to 1000 frames a second the offered stamps are strictly increasing; and between any two
      offered frames, whatever was lost in front of the encoder and however often it was opened again, the durations
      sent are the time between their stamps less what is lost at openings and at gaps of 2 s or more. So they are
      exact if there are none, and in any case exactly if the losses add up to 0. */
  lemma OfferedFramesKeepTheTimeline(poolSize: nat, maxQueued: nat, actions: seq<Action>, m: Media, fps: int, i: nat,
                                     j: nat)
    requires maxQueued > 0 && Reaches(START, poolSize, maxQueued, actions, m)
    requires Positive(m.sources) && NonDecreasing(m.sources) && FixedRate(m.sources, fps) && Rate(fps) <= 1000
    requires i <= j < |m.offered|
    ensures |m.encoder.samples| == |m.offered|
    ensures i < j ==> m.offered[i].stamp < m.offered[j].stamp
    ensures m.offered[i].stamp > 0 ==>
              var sent := Sent(m.encoder.samples, i, j);
              var span := m.offered[j].stamp - m.offered[i].stamp;
              && sent == span - Lost(m, i, j)
              && (sent == span <==> Lost(m, i, j) == 0)
              && ((forall k :: i < k <= j ==> !Interrupted(m, k)) ==> sent == span)
  {
    RunKeepsInv(START, poolSize, maxQueued, actions, m);
    StartAccounts();
    RunKeepsAccounts(START, poolSize, maxQueued, actions, m);
    if i < j {
      OfferedStampsAdvance(m, fps, i, j);
    }
    if m.offered[i].stamp > 0 {
      SentAddsUp(poolSize, maxQueued, actions, m, fps, i, j);
      if forall k :: i < k <= j ==> !Interrupted(m, k) {
        NothingLost(m, i, j);
      }
    }
  }

  // ---------------------------------------------------------------------------------------------
  // A run that loses time
  // ---------------------------------------------------------------------------------------------

  /** No frame is on its way, and there is at most one texture. */
  predicate Quiet(p: Pool.Pool) {
    && p.queue == [] && p.producer.None? && p.consumer.None?
    && p.allocations == |p.free| <= 1
  }

  lemma {:induction false} RunsFollow(from: Media, poolSize: nat, maxQueued: nat, first: seq<Action>, mid: Media,
                                      second: seq<Action>, to: Media)
    requires maxQueued > 0 && Reaches(from, poolSize, maxQueued, first, mid)
    requires Reaches(mid, poolSize, maxQueued, second, to)
    ensures Reaches(from, poolSize, maxQueued, first + second, to)
    decreases |first|
  {
    if first == [] {
      assert first + second == second;
    } else {
      assert (first + second)[1..] == first[1..] + second;
      RunsFollow(Next(from, poolSize, maxQueued, first[0]), poolSize, maxQueued, first[1..], mid, second, to);
    }
  }

  lemma OneStep(from: Media, poolSize: nat, maxQueued: nat, action: Action)
    requires maxQueued > 0 && Enabled(from, action)
    ensures Reaches(from, poolSize, maxQueued, [action], Next(from, poolSize, maxQueued, action))
  {
    assert [action][1..] == [];
  }

  /** The encoder after one frame, opened again for it at 60 frames a second or not. */
  function EncoderAfter(e: Encoder, reopens: bool, outcome: Pool.Outcome, stamp: int): Encoder {
    var ready := if reopens then Reopened(e, 60) else e;
    if outcome.Offered? then Encoded(ready, stamp) else ready
  }

  function Reopening(reopens: bool): seq<Action> {
    if reopens then [Reopen(60)] else []
  }

  /** From the callback into the consumer's hands. */
  lemma FrameArrives(m: Media, poolSize: nat, maxQueued: nat, source: Source, desc: Pool.Desc, stamp: int)
    returns (to: Media)
    requires maxQueued > 0 && poolSize > 0 && Quiet(m.pool)
    requires Selected(m.schedule, source.targetFps, source.time, 0).1 == Some(stamp)
    ensures Reaches(m, poolSize, maxQueued, [Arrival(source, Copied(desc, true)), CopyDone, Take], to)
    ensures to.sources == m.sources + [source] && to.offered == m.offered && to.encoder == m.encoder
    ensures to.schedule == Selected(m.schedule, source.targetFps, source.time, 0).0
    ensures to.pool.consumer.Some? && to.pool.consumer.value.stamp == stamp
    ensures to.pool.queue == [] && to.pool.producer.None? && to.pool.free == [] && to.pool.allocations == 1
  {
    var arrival := Arrival(source, Copied(desc, true));
    var copying := FrameIsCopied(m, poolSize, maxQueued, source, desc, stamp);
    OneStep(m, poolSize, maxQueued, arrival);
    var queued := Next(copying, poolSize, maxQueued, CopyDone);
    OneStep(copying, poolSize, maxQueued, CopyDone);
    to := Next(queued, poolSize, maxQueued, Take);
    OneStep(queued, poolSize, maxQueued, Take);
    RunsFollow(m, poolSize, maxQueued, [arrival], copying, [CopyDone], queued);
    RunsFollow(m, poolSize, maxQueued, [arrival] + [CopyDone], queued, [Take], to);
    assert [arrival] + [CopyDone] + [Take] == [arrival, CopyDone, Take];
  }

  lemma FrameIsCopied(m: Media, poolSize: nat, maxQueued: nat, source: Source, desc: Pool.Desc, stamp: int)
    returns (to: Media)
    requires maxQueued > 0 && poolSize > 0 && Quiet(m.pool)
    requires Selected(m.schedule, source.targetFps, source.time, 0).1 == Some(stamp)
    ensures to == Arrived(m, poolSize, maxQueued, source, Copied(desc, true))
    ensures to.sources == m.sources + [source] && to.offered == m.offered && to.encoder == m.encoder
    ensures to.schedule == Selected(m.schedule, source.targetFps, source.time, 0).0
    ensures to.pool.producer.Some? && to.pool.producer.value.stamp == stamp
    ensures to.pool.queue == [] && to.pool.consumer.None? && to.pool.free == [] && to.pool.allocations == 1
  {
    to := Arrived(m, poolSize, maxQueued, source, Copied(desc, true));
  }

  lemma FrameFinishes(m: Media, poolSize: nat, maxQueued: nat, reopens: bool, outcome: Pool.Outcome)
    returns (to: Media)
    requires maxQueued > 0 && m.pool.consumer.Some?
    requires m.pool.queue == [] && m.pool.producer.None? && m.pool.free == [] && m.pool.allocations == 1
    ensures Reaches(m, poolSize, maxQueued, Reopening(reopens) + [Finish(outcome)], to)
    ensures Quiet(to.pool) && to.sources == m.sources && to.schedule == m.schedule
    ensures to.offered == m.offered + if outcome.Offered? then [m.pool.consumer.value] else []
    ensures to.encoder == EncoderAfter(m.encoder, reopens, outcome, m.pool.consumer.value.stamp)
  {
    var ready := if reopens then Next(m, poolSize, maxQueued, Reopen(60)) else m;
    if reopens {
      OneStep(m, poolSize, maxQueued, Reopen(60));
    }
    to := Next(ready, poolSize, maxQueued, Finish(outcome));
    OneStep(ready, poolSize, maxQueued, Finish(outcome));
    RunsFollow(m, poolSize, maxQueued, Reopening(reopens), ready, [Finish(outcome)], to);
  }

  /** One frame on its way to the encoder. */
  function Through(source: Source, desc: Pool.Desc, reopens: bool, outcome: Pool.Outcome): seq<Action> {
    [Arrival(source, Copied(desc, true)), CopyDone, Take] + (Reopening(reopens) + [Finish(outcome)])
  }

  lemma FrameThrough(m: Media, poolSize: nat, maxQueued: nat, source: Source, desc: Pool.Desc, reopens: bool,
                     outcome: Pool.Outcome, stamp: int)
    returns (to: Media)
    requires maxQueued > 0 && poolSize > 0 && Quiet(m.pool)
    requires Selected(m.schedule, source.targetFps, source.time, 0).1 == Some(stamp)
    ensures Reaches(m, poolSize, maxQueued, Through(source, desc, reopens, outcome), to)
    ensures Quiet(to.pool) && to.sources == m.sources + [source]
    ensures to.schedule == Selected(m.schedule, source.targetFps, source.time, 0).0
    ensures |to.offered| == |m.offered| + if outcome.Offered? then 1 else 0
    ensures outcome.Offered? ==> to.offered[..|m.offered|] == m.offered && to.offered[|m.offered|].stamp == stamp
    ensures !outcome.Offered? ==> to.offered == m.offered
    ensures to.encoder == EncoderAfter(m.encoder, reopens, outcome, stamp)
  {
    var taken := FrameArrives(m, poolSize, maxQueued, source, desc, stamp);
    to := FrameFinishes(taken, poolSize, maxQueued, reopens, outcome);
    RunsFollow(m, poolSize, maxQueued, [Arrival(source, Copied(desc, true)), CopyDone, Take], taken,
               Reopening(reopens) + [Finish(outcome)], to);
  }

  /** Frames at 1.0 s, 1.5 s and 2.5 s. The window is resized after the first; the second is skipped because the
      encoder was opened less than a second ago, and the third opens it again. */
  function ResizeRun(desc: Pool.Desc, resized: Pool.Desc): seq<Action> {
    Through(FIRST, desc, true, Pool.Offered) +
    (Through(SECOND, resized, false, Pool.InitSkipped) + Through(THIRD, resized, true, Pool.Offered))
  }

  const FIRST := Source(10_000_000, 60)
  const SECOND := Source(15_000_000, 60)
  const THIRD := Source(25_000_000, 60)

  lemma ResizeSchedule()
    ensures Selected(UNSET, 60, 10_000_000, 0) == (Schedule(60, 610_000_000), Some(1_000_000))
    ensures Selected(Schedule(60, 610_000_000), 60, 15_000_000, 0) == (Schedule(60, 910_000_000), Some(1_500_000))
    ensures Selected(Schedule(60, 910_000_000), 60, 25_000_000, 0).1 == Some(2_500_000)
  {
  }

  /** The run, with the frames and samples it ends with. */
  lemma ResizeReaches(poolSize: nat, maxQueued: nat, desc: Pool.Desc, resized: Pool.Desc) returns (m: Media)
    requires maxQueued > 0 && poolSize > 0
    ensures Reaches(START, poolSize, maxQueued, ResizeRun(desc, resized), m)
    ensures m.sources == [FIRST, SECOND, THIRD]
    ensures |m.offered| == 2 && m.offered[0].stamp == 1_000_000 && m.offered[1].stamp == 2_500_000
    ensures m.encoder == EncoderAfter(EncoderAfter(START.encoder, true, Pool.Offered, 1_000_000), true, Pool.Offered,
                                      2_500_000)
  {
    ResizeSchedule();
    var first := FrameThrough(START, poolSize, maxQueued, FIRST, desc, true, Pool.Offered, 1_000_000);
    var second := FrameThrough(first, poolSize, maxQueued, SECOND, resized, false, Pool.InitSkipped, 1_500_000);
    m := FrameThrough(second, poolSize, maxQueued, THIRD, resized, true, Pool.Offered, 2_500_000);
    RunsFollow(first, poolSize, maxQueued, Through(SECOND, resized, false, Pool.InitSkipped), second,
               Through(THIRD, resized, true, Pool.Offered), m);
    RunsFollow(START, poolSize, maxQueued, Through(FIRST, desc, true, Pool.Offered), first,
               Through(SECOND, resized, false, Pool.InitSkipped) + Through(THIRD, resized, true, Pool.Offered), m);
    assert m.offered[..1][0] == m.offered[0];
  }

  /** The second sample is sent with the nominal 16666 us instead of the 1.5 s that passed: the receiver's timeline is
      1483334 us short. */
  lemma ReopeningLosesTime(poolSize: nat, maxQueued: nat, desc: Pool.Desc, resized: Pool.Desc) returns (m: Media)
    requires maxQueued > 0 && poolSize > 0
    ensures Reaches(START, poolSize, maxQueued, ResizeRun(desc, resized), m)
    ensures Positive(m.sources) && NonDecreasing(m.sources) && FixedRate(m.sources, 60)
    ensures OfferedStamps(m) == [1_000_000, 2_500_000]
    ensures m.encoder.samples == [Sample(true, 16_666, 16_666), Sample(true, 16_666, 16_666)]
    ensures Sent(m.encoder.samples, 0, 1) == 16_666 && Lost(m, 0, 1) == 1_483_334
  {
    m := ResizeReaches(poolSize, maxQueued, desc, resized);
  }
}
