/**
 The bitrate reopen protocol: any number of adjusters change the target bitrate and bump a generation,
 one initializer at a time opens the encoder and notes which generation it applied. Every atomic load,
 store, exchange and increment is a step of its own.
 */
module BitrateReopen {
  import opened Common

  /** Where the initializer stands between its atomic accesses. `TargetOnly` belongs to the other order of its loads. */
  datatype InitPhase =
    | Outside
    | GenerationLoaded(generation: nat)
    | TargetOnly(target: int)
    | TargetLoaded(generation: nat, target: int)
    | Opened(generation: nat)
    | Committing(generation: nat)

  /** `between` holds the adjusters that exchanged the target but did not increment the generation yet. */
  datatype State = State(
    target: int,
    generation: nat,
    applied: nat,
    between: set<nat>,
    phase: InitPhase,
    openedWith: Option<int>)

  datatype Action =
    | Exchange(adjuster: nat, bitrate: int)
    | Increment(adjuster: nat)
    | LoadGeneration
    | LoadTarget
    | OpenCodec
    | FailInit
    | CompareGeneration
    | StoreApplied
    | Finalize

  function Start(target: int): State {
    State(target, 0, 0, {}, Outside, None)
  }

  predicate Enabled(s: State, action: Action) {
    match action
    case Exchange(adjuster, _) => adjuster !in s.between
    case Increment(adjuster) => adjuster in s.between
    case LoadGeneration => s.phase.Outside?
    case LoadTarget => s.phase.GenerationLoaded?
    case OpenCodec => s.phase.TargetLoaded?
    case FailInit => s.phase.TargetLoaded?
    case CompareGeneration => s.phase.Opened?
    case StoreApplied => s.phase.Committing?
    case Finalize => s.phase.Outside?
  }

  function Next(s: State, action: Action): State
    requires Enabled(s, action)
  {
    match action
    case Exchange(adjuster, bitrate) =>
      // An exchange that finds its own value returns without an increment.
      if s.target == bitrate then s else s.(target := bitrate, between := s.between + {adjuster})
    case Increment(adjuster) => s.(generation := s.generation + 1, between := s.between - {adjuster})
    case LoadGeneration => s.(phase := GenerationLoaded(s.generation))
    // The old codec is freed before a new one is opened.
    case LoadTarget => s.(phase := TargetLoaded(s.phase.generation, s.target), openedWith := None)
    case OpenCodec => s.(phase := Opened(s.phase.generation), openedWith := Some(s.phase.target))
    case FailInit => s.(phase := Outside)
    case CompareGeneration =>
      s.(phase := if s.generation == s.phase.generation then Committing(s.phase.generation) else Outside)
    case StoreApplied => s.(applied := s.phase.generation, phase := Outside)
    case Finalize => s.(openedWith := None)
  }

  ghost predicate Reaches(from: State, actions: seq<Action>, to: State)
    decreases |actions|
  {
    if actions == [] then from == to
    else Enabled(from, actions[0]) && Reaches(Next(from, actions[0]), actions[1..], to)
  }

  predicate Pending(s: State) {
    s.generation != s.applied
  }

  /** Whenever no adjuster is between its two writes and no change is pending, an open encoder runs at the target. */
  ghost predicate Consistent(s: State) {
    s.between == {} && !Pending(s) && s.openedWith.Some? ==> s.openedWith.value == s.target
  }

  /** The inductive form. `generation + |between|` counts the changes of the target, and `loadedAt` is that count at the
      last load of the target. A generation is only ever applied by an initializer that loaded it before the target,
      so `applied` never passes `loadedAt`: when it has caught up with all changes, none came after the load. */
  ghost predicate Inv(s: State, loadedAt: nat) {
    var changes := s.generation + |s.between|;
    && s.applied <= loadedAt <= changes
    && (s.openedWith.Some? && loadedAt == changes ==> s.openedWith.value == s.target)
    && (s.phase.TargetLoaded? ==> s.openedWith.None? && (loadedAt == changes ==> s.phase.target == s.target))
    && (s.phase.GenerationLoaded? ==> s.phase.generation <= changes)
    && (s.phase.TargetLoaded? || s.phase.Opened? || s.phase.Committing? ==> s.phase.generation <= loadedAt)
  }

  function LoadedAtAfter(s: State, loadedAt: nat, action: Action): nat
    requires Enabled(s, action)
  {
    if action.LoadTarget? then s.generation + |s.between| else loadedAt
  }

  lemma StepKeepsInv(s: State, loadedAt: nat, action: Action)
    requires Inv(s, loadedAt) && Enabled(s, action)
    ensures Inv(Next(s, action), LoadedAtAfter(s, loadedAt, action))
  {
  }

  lemma {:induction false} RunKeepsInv(from: State, loadedAt: nat, actions: seq<Action>, to: State)
    returns (loadedAt': nat)
    requires Inv(from, loadedAt) && Reaches(from, actions, to)
    ensures Inv(to, loadedAt')
    decreases |actions|
  {
    if actions == [] {
      loadedAt' := loadedAt;
    } else {
      StepKeepsInv(from, loadedAt, actions[0]);
      loadedAt' := RunKeepsInv(Next(from, actions[0]), LoadedAtAfter(from, loadedAt, actions[0]), actions[1..], to);
    }
  }

  /** The protocol is safe in every state of every interleaving. */
  lemma NoStaleBitrate(target: int, actions: seq<Action>, to: State)
    requires Reaches(Start(target), actions, to)
    ensures Consistent(to)
  {
    var _ := RunKeepsInv(Start(target), 0, actions, to);
  }

  const REOPEN := [LoadGeneration, LoadTarget, OpenCodec, CompareGeneration, StoreApplied]

  /** And it settles: once the adjusters are through, one undisturbed reopening leaves nothing pending and the encoder
      at the target. */
  lemma ReopeningSettles(s: State)
    requires s.between == {} && s.phase.Outside?
    ensures exists to ::
              && Reaches(s, REOPEN, to)
              && !Pending(to) && to.openedWith == Some(s.target) && to.target == s.target
  {
    var s1 := Next(s, LoadGeneration);
    var s2 := Next(s1, LoadTarget);
    var s3 := Next(s2, OpenCodec);
    var s4 := Next(s3, CompareGeneration);
    var to := Next(s4, StoreApplied);
    assert REOPEN[1..] == [LoadTarget, OpenCodec, CompareGeneration, StoreApplied];
    assert REOPEN[1..][1..] == [OpenCodec, CompareGeneration, StoreApplied];
    assert REOPEN[1..][1..][1..] == [CompareGeneration, StoreApplied];
    assert Reaches(s4, [StoreApplied], to);
    assert Reaches(s2, REOPEN[1..][1..], to);
    assert Reaches(s, REOPEN, to);
  }

  // ---------------------------------------------------------------------------------------------
  // The other order
  // ---------------------------------------------------------------------------------------------

  /** The protocol with the initializer's two loads exchanged; everything else is as before. `TargetOnly` is the
      place between the loads. */
  predicate EnabledTargetFirst(s: State, action: Action) {
    match action
    case LoadTarget => s.phase.Outside?
    case LoadGeneration => s.phase.TargetOnly?
    case _ => Enabled(s, action)
  }

  function NextTargetFirst(s: State, action: Action): State
    requires EnabledTargetFirst(s, action)
  {
    match action
    case LoadTarget => s.(phase := TargetOnly(s.target), openedWith := None)
    case LoadGeneration => s.(phase := TargetLoaded(s.generation, s.phase.target))
    case _ => Next(s, action)
  }

  ghost predicate ReachesTargetFirst(from: State, actions: seq<Action>, to: State)
    decreases |actions|
  {
    if actions == [] then from == to
    else
      EnabledTargetFirst(from, actions[0]) && ReachesTargetFirst(NextTargetFirst(from, actions[0]), actions[1..], to)
  }

  lemma StepTargetFirst(from: State, action: Action, rest: seq<Action>, to: State) returns (actions: seq<Action>)
    requires EnabledTargetFirst(from, action) && ReachesTargetFirst(NextTargetFirst(from, action), rest, to)
    ensures actions == [action] + rest && ReachesTargetFirst(from, actions, to)
  {
    actions := [action] + rest;
    assert actions[1..] == rest;
  }

  /** A change that runs to completion between the two loads. */
  function ChangeBetweenLoads(adjuster: nat, bitrate: int): seq<Action> {
    [LoadTarget, Exchange(adjuster, bitrate), Increment(adjuster), LoadGeneration, OpenCodec, CompareGeneration,
     StoreApplied]
  }

  /** Reading the generation before the target is what makes the protocol safe: in the other order a run from the
      start notes a change as applied while the encoder has the old bitrate. */
  lemma TargetFirstIsUnsafe(target: int, adjuster: nat, bitrate: int) returns (to: State)
    requires bitrate != target
    ensures ReachesTargetFirst(Start(target), ChangeBetweenLoads(adjuster, bitrate), to)
    ensures to.between == {} && !Pending(to) && to.openedWith == Some(target) && to.target == bitrate
    ensures !Consistent(to)
  {
    var s0 := Start(target);
    var s1 := NextTargetFirst(s0, LoadTarget);
    var s2 := NextTargetFirst(s1, Exchange(adjuster, bitrate));
    var s3 := NextTargetFirst(s2, Increment(adjuster));
    var s4 := NextTargetFirst(s3, LoadGeneration);
    var s5 := NextTargetFirst(s4, OpenCodec);
    var s6 := NextTargetFirst(s5, CompareGeneration);
    to := NextTargetFirst(s6, StoreApplied);
    assert s3.between == {};
    var r6 := StepTargetFirst(s6, StoreApplied, [], to);
    var r5 := StepTargetFirst(s5, CompareGeneration, r6, to);
    var r4 := StepTargetFirst(s4, OpenCodec, r5, to);
    var r3 := StepTargetFirst(s3, LoadGeneration, r4, to);
    var r2 := StepTargetFirst(s2, Increment(adjuster), r3, to);
    var r1 := StepTargetFirst(s1, Exchange(adjuster, bitrate), r2, to);
    var r0 := StepTargetFirst(s0, LoadTarget, r1, to);
    assert r0 == ChangeBetweenLoads(adjuster, bitrate);
  }
}
