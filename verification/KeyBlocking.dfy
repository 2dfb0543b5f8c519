/**
 What the keyboard handler keeps from the operating system: over every run of the input pipeline it never takes Alt+Tab,
 Alt+F4 or Control+Escape for held together, and it blocks nothing else.
 */
module KeyBlocking {
  import opened KeyCodes
  import opened InputState
  import opened KeyInput
  import opened InputPipeline

  predicate HoldsAlt(keys: set<nat>) {
    VK_LMENU in keys || VK_RMENU in keys
  }

  predicate HoldsControl(keys: set<nat>) {
    VK_LCONTROL in keys || VK_RCONTROL in keys
  }

  /** The keys include a combination that the operating system would act on. */
  predicate Forbidden(keys: set<nat>) {
    (HoldsAlt(keys) && (VK_TAB in keys || VK_F4 in keys)) || (HoldsControl(keys) && VK_ESCAPE in keys)
  }

  // ---------------------------------------------------------------------------------------------
  // Every run
  // ---------------------------------------------------------------------------------------------

  /** The invariant; an id is expected from the first message on. */
  predicate Allowed(handler: HandlerState) {
    !Forbidden(handler.keyboard.reported) && (handler.sequence.expected == 0 ==> handler.sequence.lastReceived == 0)
  }

  lemma EnqueueAllows(handler: HandlerState, maxPending: int, message: KeyMessage)
    requires Allowed(handler)
    ensures Allowed(Enqueued(handler, maxPending, message))
  {
  }

  lemma {:induction false} EmitAllows(handler: HandlerState, maxPending: int, order: seq<Code>)
    requires Allowed(handler)
    ensures Allowed(EmitKeyUps(handler, maxPending, order))
  {
    if order != [] {
      EmitAllows(handler, maxPending, order[..|order| - 1]);
    }
  }

  lemma PollAllows(keymap: Keymap, handler: HandlerState, clock: int)
    requires Allowed(handler) && handler.queue != []
    ensures Allowed(Polled(keymap, handler, clock))
  {
  }

  lemma StepAllows(config: Config, p: Pipeline, action: Action)
    requires Allowed(p.handler) && Enabled(p, config, action)
    ensures Allowed(Next(p, config, action).handler)
  {
    match action {
      case ClientSends(_, order, _) => EmitAllows(p.handler, config.maxPendingMessages, order);
      case TransportDelivers(order, now) =>
        EmitAllows(p.handler, config.maxPendingMessages, order);
      case KeyboardPolls(clock) => PollAllows(config.keymap, p.handler, clock);
      case StuckKeyCheck(order, _) => EmitAllows(p.handler, config.maxPendingMessages, order);
      case ResetAll(order, _) => EmitAllows(p.handler, config.maxPendingMessages, order);
    }
  }

  lemma {:induction false} RunAllows(config: Config, from: Pipeline, actions: seq<Action>, to: Pipeline)
    requires Allowed(from.handler) && Reaches(from, config, actions, to)
    ensures Allowed(to.handler)
    decreases |actions|
  {
    if actions != [] {
      StepAllows(config, from, actions[0]);
      RunAllows(config, Next(from, config, actions[0]), actions[1..], to);
    }
  }

  /** In every state of every run, whatever the table, the reported keys hold no forbidden combination. */
  lemma NeverForbidden(config: Config, clock: int, actions: seq<Action>, to: Pipeline)
    requires Reaches(Start(clock), config, actions, to)
    ensures !Forbidden(to.handler.keyboard.reported)
  {
    RunAllows(config, Start(clock), actions, to);
  }

  // ---------------------------------------------------------------------------------------------
  // Nothing else is blocked
  // ---------------------------------------------------------------------------------------------

  /** The message skips an id, and no skip released the keys within the last second. */
  predicate SkipReleases(sequence: SequenceState, sequenceId: nat, clock: int) {
    0 < sequence.expected < sequenceId && clock >= sequence.lastRecoveryTime + 1000
  }

  /** One turn of the keyboard thread, in every state of every run. A skipped id first releases every key. Then a
      key-down of a supported code is down and reported, unless its virtual key would complete a forbidden
      combination; a key-up releases its code exactly when its virtual key is reported; and an unsupported code does
      nothing. */
  lemma PollingBlocksOnlyForbidden(config: Config, start: int, actions: seq<Action>, p: Pipeline, clock: int)
    requires Reaches(Start(start), config, actions, p) && p.handler.queue != []
    ensures var message, before := p.handler.queue[0], p.handler.keyboard;
            var after := Next(p, config, KeyboardPolls(clock)).handler;
            var vk := config.keymap.virtualKey(message.code);
            var held := if SkipReleases(p.handler.sequence, message.sequenceId, clock) then {} else before.down;
            && after.queue == p.handler.queue[1..]
            && after.sequence.expected == message.sequenceId + 1
            && (if vk == 0 || config.keymap.blocked(message.code) then
                  after.keyboard.reported == before.reported && after.keyboard.down == held
                else if message.isDown then
                  if Forbidden(before.reported + {vk}) then
                    after.keyboard.reported == before.reported && after.keyboard.down == held
                  else
                    after.keyboard.reported == before.reported + {vk} && after.keyboard.down == held + {message.code}
                else
                  && after.keyboard.reported == before.reported - {vk}
                  && after.keyboard.down == if vk in before.reported then held - {message.code} else held)
  {
    RunAllows(config, Start(start), actions, p);
    CompletesIff(p.handler.keyboard.reported, config.keymap.virtualKey(p.handler.queue[0].code));
  }

  lemma CompletesIff(reported: set<nat>, vk: nat)
    requires !Forbidden(reported)
    ensures Dangerous(reported, vk) <==> Forbidden(reported + {vk})
  {
  }

  /** Only a full keyboard queue, of 16 messages or the configured number if that is larger, releases keys when a
      message arrives. */
  lemma OnlyFullQueueReleases(handler: HandlerState, maxPending: int, message: KeyMessage)
    ensures var after := Enqueued(handler, maxPending, message);
            if |handler.queue| < 16 || |handler.queue| < maxPending then
              after == handler.(queue := handler.queue + [message])
            else
              && after.queue == [message] && after.keyboard.down == {} && after.keyboard.reported == {}
              && after.sequence == handler.sequence
  {
  }

  /** The key-ups that the host makes itself are appended in order, without an id, as long as there is room. */
  lemma {:induction false} EmittedKeyUpsHaveNoId(handler: HandlerState, maxPending: int, order: seq<Code>)
    requires |handler.queue| + |order| <= 16 || |handler.queue| + |order| <= maxPending
    ensures var after := EmitKeyUps(handler, maxPending, order);
            && after.keyboard == handler.keyboard && after.sequence == handler.sequence
            && |after.queue| == |handler.queue| + |order| && after.queue[..|handler.queue|] == handler.queue
            && forall i :: 0 <= i < |order| ==> after.queue[|handler.queue| + i] == KeyMessage(order[i], false, 0)
  {
    if order != [] {
      EmittedKeyUpsHaveNoId(handler, maxPending, order[..|order| - 1]);
    }
  }

  // ---------------------------------------------------------------------------------------------
  // Skipped ids
  // ---------------------------------------------------------------------------------------------

  /** The last id skips one behind the id before it. */
  predicate Skips(ids: seq<nat>) {
    |ids| > 1 && ids[|ids| - 1] > ids[|ids| - 2] + 1
  }

  /** When keys were last released for a skipped id, or the start. */
  function LastRelease(start: int, ids: seq<nat>, times: seq<int>): int
    requires |ids| == |times|
  {
    if ids == [] then start
    else
      var last := |ids| - 1;
      var before := LastRelease(start, ids[..last], times[..last]);
      if Skips(ids) && times[last] >= before + 1000 then times[last] else before
  }

  /** How often keys were released for a skipped id. */
  function Releases(start: int, ids: seq<nat>, times: seq<int>): nat
    requires |ids| == |times|
  {
    if ids == [] then 0
    else
      var last := |ids| - 1;
      Releases(start, ids[..last], times[..last])
      + if Skips(ids) && times[last] >= LastRelease(start, ids[..last], times[..last]) + 1000 then 1 else 0
  }

  /** The last skip came too soon to release the keys. */
  function Throttled(start: int, ids: seq<nat>, times: seq<int>): bool
    requires |ids| == |times|
  {
    if ids == [] then false
    else
      var last := |ids| - 1;
      if Skips(ids) then times[last] < LastRelease(start, ids[..last], times[..last]) + 1000
      else Throttled(start, ids[..last], times[..last])
  }

  /** Over any run of ids the state is told by the ids and times alone. */
  lemma {:induction false} SequenceFollowsIds(start: int, ids: seq<nat>, times: seq<int>)
    requires |ids| == |times|
    ensures AfterSequences(FreshSequence(start), ids, times)
            == SequenceState(
                 if ids == [] then 0 else ids[|ids| - 1],
                 if ids == [] then 0 else ids[|ids| - 1] + 1,
                 Releases(start, ids, times), Releases(start, ids, times), LastRelease(start, ids, times),
                 Throttled(start, ids, times))
  {
    if ids != [] {
      SequenceFollowsIds(start, ids[..|ids| - 1], times[..|ids| - 1]);
    }
  }

  /** A message asks for a recovery exactly if it skips an id behind the one before it and none released the keys within
      the last second. */
  lemma RecoversIffSkips(start: int, ids: seq<nat>, times: seq<int>, id: nat, now: int)
    requires |ids| == |times|
    ensures Recovers(AfterSequences(FreshSequence(start), ids, times), id, now)
            <==> ids != [] && id > ids[|ids| - 1] + 1 && now >= LastRelease(start, ids, times) + 1000
  {
    SequenceFollowsIds(start, ids, times);
  }

  // ---------------------------------------------------------------------------------------------
  // The host's own table
  // ---------------------------------------------------------------------------------------------

  /** Every key down is reported, but for the two that share a virtual key. */
  predicate HostTracked(keyboard: Keyboard) {
    forall code :: code in keyboard.down ==>
      VirtualKey(code) != 0 && (code !in {Enter, NumpadEnter} ==> VirtualKey(code) in keyboard.reported)
  }

  lemma HostDeliverTracks(keyboard: Keyboard, message: KeyMessage)
    requires HostTracked(keyboard)
    ensures HostTracked(Deliver(HostKeymap(), keyboard, message))
  {
    var next := Deliver(HostKeymap(), keyboard, message);
    forall code | code in next.down
      ensures VirtualKey(code) != 0 && (code !in {Enter, NumpadEnter} ==> VirtualKey(code) in next.reported)
    {
      if VirtualKey(message.code) != 0 && code != message.code {
        SharedVirtualKey(code, message.code);
        assert {code, message.code} == {Enter, NumpadEnter} ==> code in {Enter, NumpadEnter};
      }
    }
  }

  lemma {:induction false} HostEmitTracks(handler: HandlerState, maxPending: int, order: seq<Code>)
    requires HostTracked(handler.keyboard)
    ensures HostTracked(EmitKeyUps(handler, maxPending, order).keyboard)
  {
    if order != [] {
      HostEmitTracks(handler, maxPending, order[..|order| - 1]);
    }
  }

  lemma HostStepTracks(config: Config, p: Pipeline, action: Action)
    requires config.keymap == HostKeymap() && HostTracked(p.handler.keyboard) && Enabled(p, config, action)
    ensures HostTracked(Next(p, config, action).handler.keyboard)
  {
    match action {
      case ClientSends(_, order, _) => HostEmitTracks(p.handler, config.maxPendingMessages, order);
      case TransportDelivers(order, _) => HostEmitTracks(p.handler, config.maxPendingMessages, order);
      case KeyboardPolls(_) =>
        HostDeliverTracks(p.handler.keyboard, p.handler.queue[0]);
        HostDeliverTracks(AllUp(p.handler.keyboard), p.handler.queue[0]);
      case StuckKeyCheck(order, _) => HostEmitTracks(p.handler, config.maxPendingMessages, order);
      case ResetAll(order, _) => HostEmitTracks(p.handler, config.maxPendingMessages, order);
    }
  }

  lemma {:induction false} HostRunTracks(config: Config, from: Pipeline, actions: seq<Action>, to: Pipeline)
    requires config.keymap == HostKeymap() && HostTracked(from.handler.keyboard) && Reaches(from, config, actions, to)
    ensures HostTracked(to.handler.keyboard)
    decreases |actions|
  {
    if actions != [] {
      HostStepTracks(config, from, actions[0]);
      HostRunTracks(config, Next(from, config, actions[0]), actions[1..], to);
    }
  }

  lemma ReportedWhenDown(keyboard: Keyboard, code: Code, vk: nat)
    requires HostTracked(keyboard) && code != Enter && code != NumpadEnter && VirtualKey(code) == vk
    ensures code in keyboard.down ==> vk in keyboard.reported
  {
  }

  lemma DownIsReported(keyboard: Keyboard)
    requires HostTracked(keyboard)
    ensures AltLeft in keyboard.down || AltRight in keyboard.down ==> HoldsAlt(keyboard.reported)
    ensures ControlLeft in keyboard.down || ControlRight in keyboard.down ==> HoldsControl(keyboard.reported)
    ensures Tab in keyboard.down ==> VK_TAB in keyboard.reported
    ensures Function(4) in keyboard.down ==> VK_F4 in keyboard.reported
    ensures Escape in keyboard.down ==> VK_ESCAPE in keyboard.reported
  {
    ReportedWhenDown(keyboard, AltLeft, VK_LMENU);
    ReportedWhenDown(keyboard, AltRight, VK_RMENU);
    ReportedWhenDown(keyboard, ControlLeft, VK_LCONTROL);
    ReportedWhenDown(keyboard, ControlRight, VK_RCONTROL);
    ReportedWhenDown(keyboard, Tab, VK_TAB);
    ReportedWhenDown(keyboard, Function(4), VK_F4);
    ReportedWhenDown(keyboard, Escape, VK_ESCAPE);
  }

  /** With the host's table the state machine never holds Alt with Tab or F4, nor Control with Escape, over all runs. */
  lemma HostNeverHoldsForbidden(config: Config, clock: int, actions: seq<Action>, to: Pipeline)
    requires config.keymap == HostKeymap() && Reaches(Start(clock), config, actions, to)
    ensures var down := to.handler.keyboard.down;
            && (AltLeft in down || AltRight in down ==> Tab !in down && Function(4) !in down)
            && (ControlLeft in down || ControlRight in down ==> Escape !in down)
  {
    NeverForbidden(config, clock, actions, to);
    HostRunTracks(config, Start(clock), actions, to);
    DownIsReported(to.handler.keyboard);
  }

  /** Of the codes with a virtual key the host blocks the Windows keys and no other. */
  lemma HostBlocksWindowsKeys(code: Code)
    requires VirtualKey(code) != 0
    ensures HostKeymap().blocked(code) <==> code == MetaLeft || code == MetaRight
  {
  }
}
