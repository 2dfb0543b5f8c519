/**
 The other half of what the input pipeline is for: on a run that nothing disturbs, every key the client holds is
 down once the queues have drained, and no other.
 */
module InputDelivery {
  import opened KeyCodes
  import opened InputEvents
  import opened InputState
  import opened KeyInput
  import opened InputPipeline
  import Transport = InputTransport

  function SupportedOf(config: Config, codes: set<Code>): set<Code> {
    set code | code in codes && config.keymap.Supports(code)
  }

  /** Each reported virtual key is that of a key that is down. */
  predicate Accounted(config: Config, keyboard: Keyboard) {
    keyboard.reported <= VirtualKeys(config.keymap, keyboard.down)
  }

  /** The keyboard once its queue has drained. */
  function Drained(config: Config, handler: HandlerState): Keyboard {
    DeliverAll(config.keymap, handler.keyboard, handler.queue)
  }

  /** Both queues lead to a superset: the converse of the inclusions that every run keeps. */
  ghost predicate Complete(config: Config, p: Pipeline) {
    && Accounted(config, Drained(config, p.handler))
    && p.manager.PressedKeys() <= DownAfterDrain(config, p.handler)
    && SupportedOf(config, p.clientHeld) <= PressedAfterDrain(config, p.manager, p.transport)
  }

  // ---------------------------------------------------------------------------------------------
  // The keyboard side
  // ---------------------------------------------------------------------------------------------

  /** A message on a keyboard whose reported keys are those down has exactly its effect. */
  lemma DeliverIsExact(config: Config, codes: iset<Code>, keyboard: Keyboard, message: KeyMessage)
    requires config.keymap.InjectiveOn(codes)
    requires Tracked(config, codes, keyboard) && Accounted(config, keyboard) && Known(config, codes, message.code)
    requires message.isDown ==> !Dangerous(keyboard.reported, config.keymap.virtualKey(message.code))
    ensures var next := Deliver(config.keymap, keyboard, message);
            && Accounted(config, next)
            && next.down == if message.isDown then keyboard.down + {message.code} else keyboard.down - {message.code}
  {
    assert forall code :: code in keyboard.down ==> !config.keymap.Share(codes, code, message.code);
  }

  lemma EnqueueIsExact(config: Config, codes: iset<Code>, handler: HandlerState, message: KeyMessage)
    requires config.keymap.InjectiveOn(codes)
    requires HandlerSafe(config, codes, handler) && Accounted(config, Drained(config, handler))
    requires Known(config, codes, message.code) && |handler.queue| < QueueLimit(config.maxPendingMessages)
    requires message.isDown ==>
               !Dangerous(Drained(config, handler).reported, config.keymap.virtualKey(message.code))
    ensures var next, down := Enqueued(handler, config.maxPendingMessages, message), DownAfterDrain(config, handler);
            && |next.queue| == |handler.queue| + 1 && Accounted(config, Drained(config, next))
            && DownAfterDrain(config, next) == if message.isDown then down + {message.code} else down - {message.code}
  {
    assert (handler.queue + [message])[..|handler.queue|] == handler.queue;
    DeliverAllKeepsTracked(config, codes, handler.keyboard, handler.queue);
    DeliverIsExact(config, codes, Drained(config, handler), message);
  }

  /** A key-up for each listed code takes exactly those codes. */
  lemma {:induction false} EmitIsExact(config: Config, codes: iset<Code>, handler: HandlerState, order: seq<Code>)
    requires config.keymap.InjectiveOn(codes)
    requires HandlerSafe(config, codes, handler) && Accounted(config, Drained(config, handler))
    requires forall code :: code in order ==> Known(config, codes, code)
    requires |handler.queue| + |order| <= QueueLimit(config.maxPendingMessages)
    ensures var next := EmitKeyUps(handler, config.maxPendingMessages, order);
            && |next.queue| == |handler.queue| + |order| && Accounted(config, Drained(config, next))
            && DownAfterDrain(config, next) == DownAfterDrain(config, handler) - (set code | code in order)
  {
    if order != [] {
      var last := |order| - 1;
      EmitIsExact(config, codes, handler, order[..last]);
      EmitIsSafe(config, codes, handler, order[..last]);
      EnqueueIsExact(config, codes, EmitKeyUps(handler, config.maxPendingMessages, order[..last]),
                     KeyMessage(order[last], false, 0));
      MembersOneMore(order);
    }
  }

  lemma MembersOneMore<T>(order: seq<T>)
    requires order != []
    ensures forall code :: code in order <==> code in order[..|order| - 1] || code == order[|order| - 1]
  {
  }

  lemma PollIsExact(config: Config, handler: HandlerState, clock: int)
    requires handler.queue != []
    requires Recovers(handler.sequence, handler.queue[0].sequenceId, clock) ==> handler.keyboard.down == {}
    ensures Drained(config, Polled(config.keymap, handler, clock)) == Drained(config, handler)
  {
    DeliverAllHead(config.keymap, handler.keyboard, handler.queue);
  }

  /** Releasing keys in the state machine changes nothing when the queue leads to no key anyway. */
  lemma ReleaseIsExact(config: Config, handler: HandlerState)
    requires DownAfterDrain(config, handler) == {}
    ensures Drained(config, handler.(keyboard := AllUp(handler.keyboard))) == Drained(config, handler)
  {
    DeliverAllMonotone(config, AllUp(handler.keyboard), handler.keyboard, handler.queue);
  }

  // ---------------------------------------------------------------------------------------------
  // The transport side
  // ---------------------------------------------------------------------------------------------

  lemma SameKeysDrainAlike(config: Config, a: Held, b: Held, queue: seq<Event>)
    requires a.keys == b.keys
    ensures ApplyAll(config.Supports(), a, queue).keys == ApplyAll(config.Supports(), b, queue).keys
  {
    ApplyAllMonotone(config.Supports(), a, b, queue);
    ApplyAllMonotone(config.Supports(), b, a, queue);
  }

  lemma DeliveryIsExact(config: Config, manager: ManagerState, queue: seq<Event>, now: nat)
    requires queue != []
    ensures var next := Processed(config.Supports(), manager, queue[0], now);
            PressedAfterDrain(config, next, queue[1..]) == PressedAfterDrain(config, manager, queue)
  {
    var supported := config.Supports();
    var effect := Apply(supported, Project(manager, []), queue[0]);
    EventMeansItsEffect(supported, manager, queue[0], now, []);
    SameKeysDrainAlike(config, Project(Processed(supported, manager, queue[0], now), []), effect, queue[1..]);
    assert queue == [queue[0]] + queue[1..];
    ApplyAllConcat(supported, Project(manager, []), [queue[0]], queue[1..]);
    assert [queue[0]][..0] == [];
  }

  /** A message that finds room adds its own effect to what the queue leads to. */
  lemma ArrivalIsComplete(config: Config, manager: ManagerState, queue: seq<Event>, event: Event, held: set<Code>)
    requires SupportedOf(config, held) <= PressedAfterDrain(config, manager, queue)
    requires !Transport.Overflows(queue, config.maxPendingMessages, event)
    ensures var next := Transport.Enqueued(queue, config.maxPendingMessages, event);
            SupportedOf(config, ClientAfter(held, event)) <= PressedAfterDrain(config, manager, next)
  {
    var start := Project(manager, []);
    if Transport.Coalesces(queue, event) {
      MoveAppliesNoKey(config.Supports(), start, queue[..|queue| - 1], event);
      assert queue == queue[..|queue| - 1] + [queue[|queue| - 1]];
      MoveAppliesNoKey(config.Supports(), start, queue[..|queue| - 1], queue[|queue| - 1]);
    } else {
      assert (queue + [event])[..|queue|] == queue;
    }
  }

  // ---------------------------------------------------------------------------------------------
  // Every key arrives
  // ---------------------------------------------------------------------------------------------

  /** A dangerous combination with some of the keys is one with all of them. */
  lemma DangerGrows(some: set<nat>, all: set<nat>, vk: nat)
    requires some <= all
    ensures Dangerous(some, vk) ==> Dangerous(all, vk)
  {
  }

  lemma ManagedIsComplete(config: Config, codes: iset<Code>, p: Pipeline, event: Event, order: seq<Code>, now: nat)
    requires config.keymap.InjectiveOn(codes) && EventUses(event, codes)
    requires HandlerSafe(config, codes, p.handler) && ManagerKnows(config, codes, p.manager)
    requires DownAfterDrain(config, p.handler) == p.manager.PressedKeys()
    requires Accounted(config, Drained(config, p.handler))
    requires event.InputReset? ==> Enumerates(order, p.manager.PressedKeys())
    requires DeliveredInPeace(p, config, event, order, now)
    ensures var next := Managed(p, config, event, order, now);
            && Accounted(config, Drained(config, next.handler))
            && next.manager.PressedKeys() <= DownAfterDrain(config, next.handler)
  {
    if event.InputReset? {
      AllReleasedHoldsNothing(p.manager, now);
      EmitIsExact(config, codes, p.handler, order);
    } else if (event.KeyDown? || event.KeyUp?) && AfterEvent(config.Supports(), p.manager, event, now).1 {
      DangerGrows(Drained(config, p.handler).reported, VirtualKeys(config.keymap, p.manager.PressedKeys()),
                  config.keymap.virtualKey(event.code));
      EnqueueIsExact(config, codes, p.handler, KeyMessage(event.code, event.KeyDown?, event.sequenceId));
      EventMeansItsEffect(config.Supports(), p.manager, event, now, []);
    }
  }

  lemma StepIsComplete(config: Config, codes: iset<Code>, p: Pipeline, action: Action)
    requires config.keymap.InjectiveOn(codes) && Safe(config, codes, p) && Complete(config, p)
    requires Enabled(p, config, action) && ActionUses(action, codes) && Undisturbed(p, config, action)
    ensures Complete(config, Next(p, config, action))
  {
    match action {
      case ClientSends(event, _, _) =>
        ArrivalIsComplete(config, p.manager, p.transport, event, p.clientHeld);
      case TransportDelivers(order, now) =>
        var rest := p.(transport := p.transport[1..]);
        assert p.transport[0] in p.transport;
        ManagedIsComplete(config, codes, rest, p.transport[0], order, now);
        DeliveryIsExact(config, p.manager, p.transport, now);
        ManagedIsSafe(config, codes, rest, p.transport[0], order, now);
      case KeyboardPolls(clock) =>
        PollIsExact(config, p.handler, clock);
      case StuckKeyCheck(order, now) =>
        NothingToRelease(config, p, order);
        RecoveryOnlyReleases(p.manager, {}, now);
        SameKeysDrainAlike(config, Project(p.manager, []), Project(WithReleased(p.manager, {}, now), []), p.transport);
      case ResetAll(order, now) =>
        NothingToRelease(config, p, order);
        ReleaseIsExact(config, p.handler);
        AllReleasedHoldsNothing(p.manager, now);
        SameKeysDrainAlike(config, Project(p.manager, []), Project(WithAllReleased(p.manager, now), []), p.transport);
    }
  }

  lemma NothingToRelease(config: Config, p: Pipeline, order: seq<Code>)
    requires Enumerates(order, {})
    ensures EmitKeyUps(p.handler, config.maxPendingMessages, order) == p.handler
  {
    EnumeratesNothing(order);
  }

  lemma EnumeratesNothing<T(!new)>(order: seq<T>)
    requires Enumerates(order, {})
    ensures order == []
  {
    NoMembers(order);
  }

  lemma NoMembers<T>(order: seq<T>)
    ensures order == [] || exists code :: code in order
  {
    if order != [] {
      assert order[0] in order;
    }
  }

  /** In every state of every smooth run both queues lead to exactly what is held one stage before. */
  lemma {:induction false} RunIsComplete(config: Config, codes: iset<Code>, from: Pipeline, actions: seq<Action>,
                                         to: Pipeline)
    requires config.keymap.InjectiveOn(codes) && Safe(config, codes, from) && Complete(config, from)
    requires Reaches(from, config, actions, to) && UsesOnly(actions, codes) && Smooth(from, config, actions)
    ensures DownAfterDrain(config, to.handler) == to.manager.PressedKeys()
    ensures PressedAfterDrain(config, to.manager, to.transport) == SupportedOf(config, to.clientHeld)
    decreases |actions|
  {
    if actions != [] {
      StepIsSafe(config, codes, from, actions[0]);
      StepIsComplete(config, codes, from, actions[0]);
      RunIsComplete(config, codes, Next(from, config, actions[0]), actions[1..], to);
    } else {
      AppliedKeysAreSupported(config.Supports(), Project(from.manager, []), from.transport);
    }
  }

  /** Whenever both queues have drained on a smooth run, the keys down are the keys pressed, and these are the
      supported keys the client holds. */
  ghost predicate KeysArrive(config: Config, codes: iset<Code>) {
    forall clock: int, actions: seq<Action>, to: Pipeline :: DownOnceDrained(config, codes, clock, actions, to)
  }

  ghost predicate DownOnceDrained(config: Config, codes: iset<Code>, clock: int, actions: seq<Action>, to: Pipeline) {
    Reaches(Start(clock), config, actions, to) && UsesOnly(actions, codes) && Smooth(Start(clock), config, actions)
    && to.transport == [] && to.handler.queue == []
    ==> to.handler.keyboard.down == to.manager.PressedKeys() == SupportedOf(config, to.clientHeld)
  }

  lemma SmoothRunArrives(config: Config, codes: iset<Code>, clock: int, actions: seq<Action>, to: Pipeline)
    requires config.keymap.InjectiveOn(codes)
    ensures DownOnceDrained(config, codes, clock, actions, to)
  {
    if Reaches(Start(clock), config, actions, to) && UsesOnly(actions, codes) && Smooth(Start(clock), config, actions) {
      RunIsComplete(config, codes, Start(clock), actions, to);
    }
  }

  lemma InjectiveArrives(config: Config, codes: iset<Code>)
    requires config.keymap.InjectiveOn(codes)
    ensures KeysArrive(config, codes)
  {
    forall clock: int, actions: seq<Action>, to: Pipeline
      ensures DownOnceDrained(config, codes, clock, actions, to)
    {
      SmoothRunArrives(config, codes, clock, actions, to);
    }
  }

  lemma SharedVirtualKeyFails(config: Config, codes: iset<Code>, a: Code, b: Code)
    requires config.keymap.Share(codes, a, b)
    ensures !KeysArrive(config, codes)
  {
    var actions, end := StickingRun(config, codes, a, b);
    assert !DownOnceDrained(config, codes, 0, actions, end);
  }

  /** Over all smooth runs exactly the supported keys the client holds are down, again exactly for sets of codes in
      which no two supported codes share a virtual key. */
  lemma KeysArriveIff(config: Config, codes: iset<Code>)
    ensures KeysArrive(config, codes) <==> config.keymap.InjectiveOn(codes)
  {
    if config.keymap.InjectiveOn(codes) {
      InjectiveArrives(config, codes);
    } else {
      var a, b :| config.keymap.Share(codes, a, b);
      SharedVirtualKeyFails(config, codes, a, b);
    }
  }
}
