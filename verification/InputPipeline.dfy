/**
 The input pipeline of one authorized session, from the data channel to the key state machine:
 transport queue, state manager, keyboard queue and handler, with every forced release on the way.
 Each producer call, overflow handling included, and each consumed message is one atomic step.
 */
module InputPipeline {
  import opened KeyCodes
  import opened InputEvents
  import opened InputState
  import opened KeyInput
  import Transport = InputTransport

  datatype Config = Config(keymap: Keymap, maxPendingMessages: int, enableStuckKeyRecovery: bool, stuckKeyTimeout: nat)
  {
    function Supports(): Code -> bool {
      (code: Code) => keymap.Supports(code)
    }
  }

  datatype Pipeline = Pipeline(
    transport: seq<Event>,
    manager: ManagerState,
    handler: HandlerState,
    clientHeld: set<Code>)

  /** `order` is the order in which the manager happens to walk its table when it releases keys. */
  datatype Action =
    | ClientSends(event: Event, order: seq<Code>, now: nat)
    | TransportDelivers(order: seq<Code>, now: nat)
    | KeyboardPolls(clock: int)
    | StuckKeyCheck(order: seq<Code>, now: nat)
    | ResetAll(order: seq<Code>, now: nat)

  function Start(clock: int): Pipeline {
    Pipeline([], IDLE, HandlerState([], Keyboard({}, {}), FreshSequence(clock)), {})
  }

  /** The keys the client holds after it sent an event. */
  function ClientAfter(held: set<Code>, event: Event): set<Code> {
    match event
    case KeyDown(code, _) => held + {code}
    case KeyUp(code, _) => held - {code}
    case InputReset => {}
    case _ => held
  }

  /** A synthetic key-up for each listed code. */
  function EmitKeyUps(handler: HandlerState, maxPending: int, order: seq<Code>): HandlerState {
    if order == [] then handler
    else
      var last := |order| - 1;
      Enqueued(EmitKeyUps(handler, maxPending, order[..last]), maxPending, KeyMessage(order[last], false, 0))
  }

  /** The state manager's emergency release. */
  function EmergencyRelease(p: Pipeline, config: Config, order: seq<Code>, now: nat): Pipeline {
    p.(manager := WithAllReleased(p.manager, now),
    handler := EmitKeyUps(p.handler, config.maxPendingMessages, order))
  }

  /** The emergency release followed by the keyboard handler's own. */
  function ResetAllInput(p: Pipeline, config: Config, order: seq<Code>, now: nat): Pipeline {
    var released := EmergencyRelease(p, config, order, now);
    released.(handler := released.handler.(keyboard := AllUp(released.handler.keyboard)))
  }

  /** The state manager takes one message; key events it passes on go to the keyboard queue. */
  function Managed(p: Pipeline, config: Config, event: Event, order: seq<Code>, now: nat): Pipeline {
    if event.InputReset? then EmergencyRelease(p, config, order, now)
    else
      var (manager, forwarded) := AfterEvent(config.Supports(), p.manager, event, now);
      var handler :=
        if forwarded && (event.KeyDown? || event.KeyUp?) then
          Enqueued(p.handler, config.maxPendingMessages, KeyMessage(event.code, event.KeyDown?, event.sequenceId))
        else p.handler;
      p.(manager := manager, handler := handler)
  }

  ghost predicate Enabled(p: Pipeline, config: Config, action: Action) {
    match action
    case ClientSends(event, order, _) =>
      Transport.Overflows(p.transport, config.maxPendingMessages, event) ==> Enumerates(order, p.manager.PressedKeys())
    case TransportDelivers(order, _) =>
      p.transport != [] && (p.transport[0].InputReset? ==> Enumerates(order, p.manager.PressedKeys()))
    case KeyboardPolls(_) => p.handler.queue != []
    case StuckKeyCheck(order, now) =>
      config.enableStuckKeyRecovery && Enumerates(order, StuckKeys(p.manager, now, config.stuckKeyTimeout))
    case ResetAll(order, _) => Enumerates(order, p.manager.PressedKeys())
  }

  ghost function Next(p: Pipeline, config: Config, action: Action): Pipeline
    requires Enabled(p, config, action)
  {
    match action
    case ClientSends(event, order, now) =>
      var q := p.(transport := Transport.Enqueued(p.transport, config.maxPendingMessages, event),
                  clientHeld := ClientAfter(p.clientHeld, event));
      if Transport.Overflows(p.transport, config.maxPendingMessages, event) then ResetAllInput(q, config, order, now)
      else q
    case TransportDelivers(order, now) =>
      Managed(p.(transport := p.transport[1..]), config, p.transport[0], order, now)
    case KeyboardPolls(clock) => p.(handler := Polled(config.keymap, p.handler, clock))
    case StuckKeyCheck(order, now) =>
      p.(manager := WithReleased(p.manager, StuckKeys(p.manager, now, config.stuckKeyTimeout), now),
      handler := EmitKeyUps(p.handler, config.maxPendingMessages, order))
    case ResetAll(order, now) => ResetAllInput(p, config, order, now)
  }

  ghost predicate Reaches(from: Pipeline, config: Config, actions: seq<Action>, to: Pipeline)
    decreases |actions|
  {
    if actions == [] then from == to
    else Enabled(from, config, actions[0]) && Reaches(Next(from, config, actions[0]), config, actions[1..], to)
  }

  /** The key events of the run carry codes of the set only. */
  ghost predicate UsesOnly(actions: seq<Action>, codes: iset<Code>) {
    forall i :: 0 <= i < |actions| ==> ActionUses(actions[i], codes)
  }

  ghost predicate ActionUses(action: Action, codes: iset<Code>) {
    action.ClientSends? ==> EventUses(action.event, codes)
  }

  ghost predicate EventUses(event: Event, codes: iset<Code>) {
    event.KeyDown? || event.KeyUp? ==> event.code in codes
  }

  function VirtualKeys(keymap: Keymap, codes: set<Code>): set<nat> {
    set code | code in codes :: keymap.virtualKey(code)
  }

  /** The step finds room in both queues, presses no dangerous combination, and forces no held key up. */
  ghost predicate Undisturbed(p: Pipeline, config: Config, action: Action)
    requires Enabled(p, config, action)
  {
    match action
    case ClientSends(event, _, _) => !Transport.Overflows(p.transport, config.maxPendingMessages, event)
    case TransportDelivers(order, now) => DeliveredInPeace(p, config, p.transport[0], order, now)
    case KeyboardPolls(clock) =>
      Recovers(p.handler.sequence, p.handler.queue[0].sequenceId, clock) ==> p.handler.keyboard.down == {}
    case StuckKeyCheck(_, now) => StuckKeys(p.manager, now, config.stuckKeyTimeout) == {}
    case ResetAll(_, _) => p.manager.PressedKeys() == {}
  }

  ghost predicate DeliveredInPeace(p: Pipeline, config: Config, event: Event, order: seq<Code>, now: nat) {
    var room := QueueLimit(config.maxPendingMessages) - |p.handler.queue|;
    if event.InputReset? then |order| <= room
    else if (event.KeyDown? || event.KeyUp?) && AfterEvent(config.Supports(), p.manager, event, now).1 then
      && room >= 1
      && (event.KeyDown? ==>
            !Dangerous(VirtualKeys(config.keymap, p.manager.PressedKeys()), config.keymap.virtualKey(event.code)))
    else true
  }

  /** A run in which every step is undisturbed. */
  ghost predicate Smooth(from: Pipeline, config: Config, actions: seq<Action>)
    decreases |actions|
  {
    actions != [] ==>
      && Enabled(from, config, actions[0]) && Undisturbed(from, config, actions[0])
      && Smooth(Next(from, config, actions[0]), config, actions[1..])
  }

  /** The wired components: each method is one atomic step, and takes the pipeline exactly where `Next` says. */
  class InputHost {
    const config: Config
    const sessionId: string
    const layer: Transport.Layer
    const manager: Manager
    const keys: KeyHandler
    ghost var clientHeld: set<Code>

    ghost predicate Valid()
      reads this, layer
    {
      Wired() && layer.authorizedSessionId == sessionId != ""
    }

    ghost predicate Wired()
      reads this, layer
    {
      && layer.maxPendingMessages == config.maxPendingMessages
      && manager.supported == config.Supports()
      && manager.enableStuckKeyRecovery == config.enableStuckKeyRecovery
      && manager.stuckKeyTimeout == config.stuckKeyTimeout
      && keys.keymap == config.keymap
      && keys.maxPendingMessages == config.maxPendingMessages
    }

    ghost function Value(): Pipeline
      reads this, layer, manager, keys, keys.keyStateFsm, keys.sequenceManager
    {
      Pipeline(layer.messageQueue, manager.Value(), keys.Value(), clientHeld)
    }

    constructor (config: Config, sessionId: string, clock: int)
      requires sessionId != ""
      ensures Valid() && this.config == config && Value() == Start(clock)
    {
      this.config := config;
      this.sessionId := sessionId;
      layer := new Transport.Layer(config.maxPendingMessages);
      manager := new Manager(config.Supports(), config.enableStuckKeyRecovery, config.stuckKeyTimeout);
      keys := new KeyHandler(config.keymap, config.maxPendingMessages, clock);
      clientHeld := {};
      new;
      layer.AuthorizeSession(sessionId);
    }

    method SendKeyUps(released: seq<Code>)
      requires Wired()
      modifies keys, keys.keyStateFsm
      ensures Wired()
      ensures keys.Value() == EmitKeyUps(old(keys.Value()), config.maxPendingMessages, released)
    {
      for i := 0 to |released|
        invariant keys.Value() == EmitKeyUps(old(keys.Value()), config.maxPendingMessages, released[..i])
      {
        assert released[..i + 1][..i] == released[..i];
        keys.EnqueueMessage(KeyMessage(released[i], false, 0));
      }
      assert released[..|released|] == released;
    }

    method ReleaseEverything(now: nat) returns (order: seq<Code>)
      requires Wired()
      modifies manager, keys, keys.keyStateFsm
      ensures Wired() && Enumerates(order, old(manager.Value()).PressedKeys())
      ensures Value() == ResetAllInput(old(Value()), config, order, now)
    {
      var mouseUps;
      order, mouseUps := manager.EmergencyReleaseAllKeys(now);
      SendKeyUps(order);
      keys.ReleaseAllKeysEmergency();
    }

    method OnClientMessage(event: Event, now: nat) returns (order: seq<Code>)
      requires Valid()
      modifies this, layer, manager, keys, keys.keyStateFsm
      ensures Valid()
      ensures Enabled(old(Value()), config, ClientSends(event, order, now))
      ensures Value() == Next(old(Value()), config, ClientSends(event, order, now))
    {
      order := [];
      clientHeld := ClientAfter(clientHeld, event);
      var overflowed := layer.EnqueueMessage(true, sessionId, event);
      if overflowed {
        order := ReleaseEverything(now);
      }
    }

    /** Ends the session: no message is accepted any more, and the reset handler releases everything. */
    method ClearSession(now: nat) returns (order: seq<Code>)
      requires Valid()
      modifies layer, manager, keys, keys.keyStateFsm
      ensures layer.authorizedSessionId == ""
      ensures Enabled(old(Value()), config, ResetAll(order, now))
      ensures Value() == Next(old(Value()), config, ResetAll(order, now))
    {
      layer.ClearAuthorizedSession();
      order := ReleaseEverything(now);
    }

    method OnTransportMessage(now: nat) returns (order: seq<Code>)
      requires Valid() && layer.messageQueue != []
      modifies layer, manager, keys, keys.keyStateFsm
      ensures Valid()
      ensures Enabled(old(Value()), config, TransportDelivers(order, now))
      ensures Value() == Next(old(Value()), config, TransportDelivers(order, now))
    {
      order := [];
      ghost var queue := layer.messageQueue;
      var event := layer.Take();
      assert queue[0] == event && queue[1..] == layer.messageQueue;
      if event.InputReset? {
        var mouseUps;
        order, mouseUps := manager.EmergencyReleaseAllKeys(now);
        SendKeyUps(order);
      } else {
        var forwarded := manager.ProcessEvent(event, now);
        if forwarded && (event.KeyDown? || event.KeyUp?) {
          keys.EnqueueMessage(KeyMessage(event.code, event.KeyDown?, event.sequenceId));
        }
      }
    }

    method OnKeyboardTurn(clock: int)
      requires Valid() && keys.keyboardMessageQueue != []
      modifies keys, keys.keyStateFsm, keys.sequenceManager
      ensures Valid()
      ensures Value() == Next(old(Value()), config, KeyboardPolls(clock))
    {
      keys.PollMessage(clock);
    }

    method OnRecoveryTick(now: nat) returns (order: seq<Code>)
      requires Valid() && config.enableStuckKeyRecovery
      modifies manager, keys, keys.keyStateFsm
      ensures Valid()
      ensures Enabled(old(Value()), config, StuckKeyCheck(order, now))
      ensures Value() == Next(old(Value()), config, StuckKeyCheck(order, now))
    {
      order := manager.CheckForStuckKeys(now);
      SendKeyUps(order);
    }
  }

  // ---------------------------------------------------------------------------------------------
  // The keyboard side
  // ---------------------------------------------------------------------------------------------

  /** The keys down once the keyboard queue has drained. */
  function DownAfterDrain(config: Config, handler: HandlerState): set<Code> {
    DeliverAll(config.keymap, handler.keyboard, handler.queue).down
  }

  ghost predicate Known(config: Config, codes: iset<Code>, code: Code) {
    code in codes && config.keymap.Supports(code)
  }

  /** Every key down is known and its virtual key is reported, so that its key-up cannot be ignored. */
  ghost predicate Tracked(config: Config, codes: iset<Code>, keyboard: Keyboard) {
    forall code :: code in keyboard.down ==>
      Known(config, codes, code) && config.keymap.virtualKey(code) in keyboard.reported
  }

  ghost predicate HandlerSafe(config: Config, codes: iset<Code>, handler: HandlerState) {
    && Tracked(config, codes, handler.keyboard)
    && forall m :: m in handler.queue ==> Known(config, codes, m.code)
  }

  lemma DeliverKeepsTracked(config: Config, codes: iset<Code>, keyboard: Keyboard, message: KeyMessage)
    requires config.keymap.InjectiveOn(codes)
    requires Tracked(config, codes, keyboard) && Known(config, codes, message.code)
    ensures Tracked(config, codes, Deliver(config.keymap, keyboard, message))
    ensures var down := Deliver(config.keymap, keyboard, message).down;
            if message.isDown then down <= keyboard.down + {message.code}
            else down == keyboard.down - {message.code}
  {
    assert forall code :: code in keyboard.down ==> !config.keymap.Share(codes, code, message.code);
  }

  lemma {:induction false} DeliverAllKeepsTracked(config: Config, codes: iset<Code>, keyboard: Keyboard,
                                                  messages: seq<KeyMessage>)
    requires config.keymap.InjectiveOn(codes)
    requires Tracked(config, codes, keyboard) && forall m :: m in messages ==> Known(config, codes, m.code)
    ensures Tracked(config, codes, DeliverAll(config.keymap, keyboard, messages))
  {
    if messages != [] {
      var last := |messages| - 1;
      DeliverAllKeepsTracked(config, codes, keyboard, messages[..last]);
      DeliverKeepsTracked(config, codes, DeliverAll(config.keymap, keyboard, messages[..last]), messages[last]);
    }
  }

  /** Fewer keys down now are fewer keys down later: the reported keys alone steer what the handler does. */
  lemma {:induction false} DeliverAllMonotone(config: Config, a: Keyboard, b: Keyboard, messages: seq<KeyMessage>)
    requires a.reported == b.reported && a.down <= b.down
    ensures var a', b' := DeliverAll(config.keymap, a, messages), DeliverAll(config.keymap, b, messages);
            a'.reported == b'.reported && a'.down <= b'.down
  {
    if messages != [] {
      DeliverAllMonotone(config, a, b, messages[..|messages| - 1]);
    }
  }

  lemma EnqueueIsSafe(config: Config, codes: iset<Code>, handler: HandlerState, message: KeyMessage)
    requires config.keymap.InjectiveOn(codes)
    requires HandlerSafe(config, codes, handler) && Known(config, codes, message.code)
    ensures var next := Enqueued(handler, config.maxPendingMessages, message);
            && HandlerSafe(config, codes, next)
            && (if message.isDown then DownAfterDrain(config, next) <= DownAfterDrain(config, handler) + {message.code}
                else DownAfterDrain(config, next) <= DownAfterDrain(config, handler) - {message.code})
  {
    if |handler.queue| >= QueueLimit(config.maxPendingMessages) {
      assert [message][..0] == [];
      assert DeliverAll(config.keymap, Keyboard({}, {}), [message])
          == Deliver(config.keymap, Keyboard({}, {}), message);
    } else {
      var drained := DeliverAll(config.keymap, handler.keyboard, handler.queue);
      assert (handler.queue + [message])[..|handler.queue|] == handler.queue;
      DeliverAllKeepsTracked(config, codes, handler.keyboard, handler.queue);
      DeliverKeepsTracked(config, codes, drained, message);
    }
  }

  /** A key-up for each listed code takes those codes, and adds nothing, whatever overflows on the way. */
  lemma {:induction false} EmitIsSafe(config: Config, codes: iset<Code>, handler: HandlerState, order: seq<Code>)
    requires config.keymap.InjectiveOn(codes)
    requires HandlerSafe(config, codes, handler) && forall code :: code in order ==> Known(config, codes, code)
    ensures var next := EmitKeyUps(handler, config.maxPendingMessages, order);
            && HandlerSafe(config, codes, next)
            && DownAfterDrain(config, next) <= DownAfterDrain(config, handler) - (set code | code in order)
  {
    if order != [] {
      var last := |order| - 1;
      EmitIsSafe(config, codes, handler, order[..last]);
      EnqueueIsSafe(config, codes, EmitKeyUps(handler, config.maxPendingMessages, order[..last]),
                    KeyMessage(order[last], false, 0));
      assert forall code :: code in order ==> code in order[..last] || code == order[last];
    }
  }

  lemma ReleaseIsSafe(config: Config, codes: iset<Code>, handler: HandlerState)
    requires HandlerSafe(config, codes, handler)
    ensures var next := handler.(keyboard := AllUp(handler.keyboard));
            HandlerSafe(config, codes, next) && DownAfterDrain(config, next) <= DownAfterDrain(config, handler)
  {
    DeliverAllMonotone(config, AllUp(handler.keyboard), handler.keyboard, handler.queue);
  }

  /** Taking a message, with or without a gap recovery, adds nothing to what the queue leads to. */
  lemma PollIsSafe(config: Config, codes: iset<Code>, handler: HandlerState, clock: int)
    requires config.keymap.InjectiveOn(codes)
    requires HandlerSafe(config, codes, handler) && handler.queue != []
    ensures var next := Polled(config.keymap, handler, clock);
            HandlerSafe(config, codes, next) && DownAfterDrain(config, next) <= DownAfterDrain(config, handler)
  {
    var message := handler.queue[0];
    var before :=
      if Recovers(handler.sequence, message.sequenceId, clock) then AllUp(handler.keyboard) else handler.keyboard;
    assert message in handler.queue;
    DeliverKeepsTracked(config, codes, before, message);
    DeliverAllMonotone(config, before, handler.keyboard, handler.queue);
    DeliverAllHead(config.keymap, before, handler.queue);
  }

  // ---------------------------------------------------------------------------------------------
  // The transport side
  // ---------------------------------------------------------------------------------------------

  /** The keys pressed in the manager once the transport queue has drained. */
  function PressedAfterDrain(config: Config, manager: ManagerState, queue: seq<Event>): set<Code> {
    ApplyAll(config.Supports(), Project(manager, []), queue).keys
  }

  /** Only the held keys decide the held keys, and fewer now are fewer later. */
  lemma {:induction false} ApplyAllMonotone(supported: Code -> bool, a: Held, b: Held, events: seq<Event>)
    requires a.keys <= b.keys
    ensures ApplyAll(supported, a, events).keys <= ApplyAll(supported, b, events).keys
  {
    if events != [] {
      ApplyAllMonotone(supported, a, b, events[..|events| - 1]);
    }
  }

  lemma ReleasingIsSafe(config: Config, manager: ManagerState, fewer: ManagerState, queue: seq<Event>)
    requires fewer.PressedKeys() <= manager.PressedKeys()
    ensures PressedAfterDrain(config, fewer, queue) <= PressedAfterDrain(config, manager, queue)
  {
    ApplyAllMonotone(config.Supports(), Project(fewer, []), Project(manager, []), queue);
  }

  lemma DeliveryIsSafe(config: Config, manager: ManagerState, queue: seq<Event>, now: nat)
    requires queue != []
    ensures var next := Processed(config.Supports(), manager, queue[0], now);
            PressedAfterDrain(config, next, queue[1..]) <= PressedAfterDrain(config, manager, queue)
  {
    var supported := config.Supports();
    var next := Processed(supported, manager, queue[0], now);
    var effect := Apply(supported, Project(manager, []), queue[0]);
    EventMeansItsEffect(supported, manager, queue[0], now, []);
    ApplyAllMonotone(supported, Project(next, []), effect, queue[1..]);
    assert queue == [queue[0]] + queue[1..];
    ApplyAllConcat(supported, Project(manager, []), [queue[0]], queue[1..]);
    assert [queue[0]][..0] == [];
  }

  lemma {:induction false} AppliedKeysAreSupported(supported: Code -> bool, held: Held, events: seq<Event>)
    requires forall code :: code in held.keys ==> supported(code)
    ensures forall code :: code in ApplyAll(supported, held, events).keys ==> supported(code)
  {
    if events != [] {
      AppliedKeysAreSupported(supported, held, events[..|events| - 1]);
    }
  }

  lemma ArrivalIsSafe(config: Config, manager: ManagerState, queue: seq<Event>, event: Event, held: set<Code>)
    requires forall code :: code in manager.PressedKeys() ==> config.keymap.Supports(code)
    requires PressedAfterDrain(config, manager, queue) <= held
    ensures var next := Transport.Enqueued(queue, config.maxPendingMessages, event);
            PressedAfterDrain(config, manager, next) <= ClientAfter(held, event)
  {
    var start := Project(manager, []);
    if Transport.Coalesces(queue, event) {
      MoveAppliesNoKey(config.Supports(), start, queue[..|queue| - 1], event);
      assert queue == queue[..|queue| - 1] + [queue[|queue| - 1]];
      MoveAppliesNoKey(config.Supports(), start, queue[..|queue| - 1], queue[|queue| - 1]);
    } else if Transport.Overflows(queue, config.maxPendingMessages, event) {
      ResetAppliesNoKey(config.Supports(), start, event);
    } else {
      AppliedKeysAreSupported(config.Supports(), start, queue);
      EventAppliesAsClient(config.Supports(), start, queue, event, held);
    }
  }

  lemma MoveAppliesNoKey(supported: Code -> bool, start: Held, queue: seq<Event>, move: Event)
    requires move.MouseMove?
    ensures ApplyAll(supported, start, queue + [move]).keys == ApplyAll(supported, start, queue).keys
  {
    assert (queue + [move])[..|queue|] == queue;
  }

  lemma ResetAppliesNoKey(supported: Code -> bool, start: Held, event: Event)
    ensures ApplyAll(supported, start, [InputReset]).keys == {}
    ensures event.IsRelease() ==> ApplyAll(supported, start, [InputReset, event]).keys == {}
  {
    assert [InputReset][..0] == [];
    assert [InputReset, event][..1] == [InputReset];
  }

  lemma EventAppliesAsClient(supported: Code -> bool, start: Held, queue: seq<Event>, event: Event, held: set<Code>)
    requires ApplyAll(supported, start, queue).keys <= held
    requires forall code :: code in ApplyAll(supported, start, queue).keys ==> supported(code)
    ensures ApplyAll(supported, start, queue + [event]).keys <= ClientAfter(held, event)
  {
    assert (queue + [event])[..|queue|] == queue;
  }

  // ---------------------------------------------------------------------------------------------
  // No key sticks
  // ---------------------------------------------------------------------------------------------

  ghost predicate ManagerKnows(config: Config, codes: iset<Code>, manager: ManagerState) {
    forall code :: code in manager.keys ==> Known(config, codes, code)
  }

  /** Both queues lead to a subset: the keyboard queue of what the manager takes for pressed, the transport queue
      of what the client holds. */
  ghost predicate Safe(config: Config, codes: iset<Code>, p: Pipeline) {
    && HandlerSafe(config, codes, p.handler)
    && ManagerKnows(config, codes, p.manager)
    && (forall e :: e in p.transport ==> EventUses(e, codes))
    && DownAfterDrain(config, p.handler) <= p.manager.PressedKeys()
    && PressedAfterDrain(config, p.manager, p.transport) <= p.clientHeld
  }

  lemma EmergencyReleaseIsSafe(config: Config, codes: iset<Code>, p: Pipeline, order: seq<Code>, now: nat)
    requires config.keymap.InjectiveOn(codes)
    requires HandlerSafe(config, codes, p.handler) && ManagerKnows(config, codes, p.manager)
    requires DownAfterDrain(config, p.handler) <= p.manager.PressedKeys()
    requires Enumerates(order, p.manager.PressedKeys())
    ensures var next := EmergencyRelease(p, config, order, now);
            && HandlerSafe(config, codes, next.handler) && ManagerKnows(config, codes, next.manager)
            && DownAfterDrain(config, next.handler) == {} && next.manager.PressedKeys() == {}
  {
    EmitIsSafe(config, codes, p.handler, order);
    AllReleasedHoldsNothing(p.manager, now);
  }

  lemma ResetAllInputIsSafe(config: Config, codes: iset<Code>, p: Pipeline, order: seq<Code>, now: nat)
    requires config.keymap.InjectiveOn(codes)
    requires HandlerSafe(config, codes, p.handler) && ManagerKnows(config, codes, p.manager)
    requires DownAfterDrain(config, p.handler) <= p.manager.PressedKeys()
    requires Enumerates(order, p.manager.PressedKeys())
    ensures var next := ResetAllInput(p, config, order, now);
            && HandlerSafe(config, codes, next.handler) && ManagerKnows(config, codes, next.manager)
            && DownAfterDrain(config, next.handler) == {} && next.manager.PressedKeys() == {}
  {
    EmergencyReleaseIsSafe(config, codes, p, order, now);
    ReleaseIsSafe(config, codes, EmergencyRelease(p, config, order, now).handler);
  }

  lemma ManagedIsSafe(config: Config, codes: iset<Code>, p: Pipeline, event: Event, order: seq<Code>, now: nat)
    requires config.keymap.InjectiveOn(codes)
    requires HandlerSafe(config, codes, p.handler) && ManagerKnows(config, codes, p.manager)
    requires DownAfterDrain(config, p.handler) <= p.manager.PressedKeys()
    requires EventUses(event, codes)
    requires event.InputReset? ==> Enumerates(order, p.manager.PressedKeys())
    ensures var next := Managed(p, config, event, order, now);
            && HandlerSafe(config, codes, next.handler) && ManagerKnows(config, codes, next.manager)
            && DownAfterDrain(config, next.handler) <= next.manager.PressedKeys()
            && next.manager == Processed(config.Supports(), p.manager, event, now)
  {
    if event.InputReset? {
      EmergencyReleaseIsSafe(config, codes, p, order, now);
    } else if event.KeyDown? || event.KeyUp? {
      var (manager, forwarded) := AfterEvent(config.Supports(), p.manager, event, now);
      if forwarded {
        EnqueueIsSafe(config, codes, p.handler, KeyMessage(event.code, event.KeyDown?, event.sequenceId));
        EventMeansItsEffect(config.Supports(), p.manager, event, now, []);
      }
    }
  }

  lemma StepIsSafe(config: Config, codes: iset<Code>, p: Pipeline, action: Action)
    requires config.keymap.InjectiveOn(codes) && Safe(config, codes, p)
    requires Enabled(p, config, action) && ActionUses(action, codes)
    ensures Safe(config, codes, Next(p, config, action))
  {
    match action {
      case ClientSends(event, order, now) =>
        ArrivalIsSafe(config, p.manager, p.transport, event, p.clientHeld);
        if Transport.Overflows(p.transport, config.maxPendingMessages, event) {
          var next := Next(p, config, action);
          var q := p.(transport := next.transport, clientHeld := next.clientHeld);
          ResetAllInputIsSafe(config, codes, q, order, now);
          ReleasingIsSafe(config, p.manager, next.manager, next.transport);
        }
      case TransportDelivers(order, now) =>
        var rest := p.(transport := p.transport[1..]);
        assert p.transport[0] in p.transport;
        ManagedIsSafe(config, codes, rest, p.transport[0], order, now);
        DeliveryIsSafe(config, p.manager, p.transport, now);
      case KeyboardPolls(clock) =>
        PollIsSafe(config, codes, p.handler, clock);
      case StuckKeyCheck(order, now) =>
        var stuck := StuckKeys(p.manager, now, config.stuckKeyTimeout);
        EmitIsSafe(config, codes, p.handler, order);
        RecoveryOnlyReleases(p.manager, stuck, now);
        ReleasingIsSafe(config, p.manager, WithReleased(p.manager, stuck, now), p.transport);
      case ResetAll(order, now) =>
        ResetAllInputIsSafe(config, codes, p, order, now);
        ReleasingIsSafe(config, p.manager, WithAllReleased(p.manager, now), p.transport);
    }
  }

  /** Over every run on codes without a shared virtual key: what the keyboard queue leads to is always pressed in the
      manager, and what the transport queue leads to is always held by the client. */
  lemma {:induction false} RunIsSafe(config: Config, codes: iset<Code>, from: Pipeline, actions: seq<Action>,
                                     to: Pipeline)
    requires config.keymap.InjectiveOn(codes) && Safe(config, codes, from)
    requires Reaches(from, config, actions, to) && UsesOnly(actions, codes)
    ensures Safe(config, codes, to)
    decreases |actions|
  {
    if actions != [] {
      StepIsSafe(config, codes, from, actions[0]);
      RunIsSafe(config, codes, Next(from, config, actions[0]), actions[1..], to);
    }
  }

  /** Whenever both queues have drained, what is down is pressed and what is pressed is held by the client. */
  ghost predicate NoKeySticks(config: Config, codes: iset<Code>) {
    forall clock: int, actions: seq<Action>, to: Pipeline :: HeldOnceDrained(config, codes, clock, actions, to)
  }

  ghost predicate HeldOnceDrained(config: Config, codes: iset<Code>, clock: int, actions: seq<Action>, to: Pipeline) {
    Reaches(Start(clock), config, actions, to) && UsesOnly(actions, codes)
    && to.transport == [] && to.handler.queue == []
    ==> to.handler.keyboard.down <= to.manager.PressedKeys() <= to.clientHeld
  }

  lemma DrainedRunIsHeld(config: Config, codes: iset<Code>, clock: int, actions: seq<Action>, to: Pipeline)
    requires config.keymap.InjectiveOn(codes)
    ensures HeldOnceDrained(config, codes, clock, actions, to)
  {
    if Reaches(Start(clock), config, actions, to) && UsesOnly(actions, codes) {
      RunIsSafe(config, codes, Start(clock), actions, to);
    }
  }

  lemma InjectiveIsSafe(config: Config, codes: iset<Code>)
    requires config.keymap.InjectiveOn(codes)
    ensures NoKeySticks(config, codes)
  {
    forall clock: int, actions: seq<Action>, to: Pipeline
      ensures HeldOnceDrained(config, codes, clock, actions, to)
    {
      DrainedRunIsHeld(config, codes, clock, actions, to);
    }
  }

  /** The pipeline never leaves a key stuck, over all runs, exactly for sets of codes in which no two supported codes
      share a virtual key. */
  lemma NoKeySticksIff(config: Config, codes: iset<Code>)
    ensures NoKeySticks(config, codes) <==> config.keymap.InjectiveOn(codes)
  {
    if config.keymap.InjectiveOn(codes) {
      InjectiveIsSafe(config, codes);
    } else {
      var a, b :| config.keymap.Share(codes, a, b);
      SharedVirtualKeySticks(config, codes, a, b);
    }
  }

  // ---------------------------------------------------------------------------------------------
  // The run that sticks a key
  // ---------------------------------------------------------------------------------------------

  /** One key event sent, delivered and polled while nothing else is queued. */
  function KeyActions(event: Event): seq<Action> {
    [ClientSends(event, [], 0), TransportDelivers([], 0), KeyboardPolls(0)]
  }

  ghost predicate Quiet(p: Pipeline) {
    && p.transport == [] && p.handler.queue == []
    && !(p.handler.sequence.expected > 0 && p.handler.sequence.lastReceived > 0)
  }

  lemma KeyEventRuns(p: Pipeline, config: Config, event: Event) returns (q: Pipeline)
    requires Quiet(p) && p.handler.sequence.lastReceived == 0
    requires event.KeyDown? || event.KeyUp?
    requires event.sequenceId == 0 && config.keymap.Supports(event.code)
    requires p.manager.Phase(event.code) == if event.KeyDown? then Released else Pressed
    ensures Reaches(p, config, KeyActions(event), q)
    ensures Quiet(q) && q.handler.sequence.lastReceived == 0
    ensures q.manager == p.manager.(
              keys := p.manager.keys[event.code := KeyInfo(if event.KeyDown? then Pressed else Released, 0)])
    ensures q.handler.keyboard
            == Deliver(config.keymap, p.handler.keyboard, KeyMessage(event.code, event.KeyDown?, 0))
    ensures q.clientHeld == ClientAfter(p.clientHeld, event)
    ensures NotDangerous(p, config, event) ==> Smooth(p, config, KeyActions(event))
  {
    var actions := KeyActions(event);
    var p1 := Next(p, config, actions[0]);
    assert p1.transport == [event] && p1.manager == p.manager && p1.handler == p.handler;
    var p2 := Next(p1, config, actions[1]);
    assert p2.handler.queue == [KeyMessage(event.code, event.KeyDown?, 0)] && p2.transport == [];
    q := Next(p2, config, actions[2]);
    assert actions[1..] == [actions[1], actions[2]];
    assert actions[1..][1..] == [actions[2]];
    assert Reaches(q, config, [], q);
    assert Reaches(p2, config, [actions[2]], q);
    assert Reaches(p1, config, actions[1..], q);
    assert Smooth(p2, config, [actions[2]]);
    assert NotDangerous(p, config, event) ==> Smooth(p1, config, actions[1..]);
  }

  ghost predicate NotDangerous(p: Pipeline, config: Config, event: Event) {
    event.KeyDown? ==>
      !Dangerous(VirtualKeys(config.keymap, p.manager.PressedKeys()), config.keymap.virtualKey(event.code))
  }

  lemma {:induction false} ReachesConcat(from: Pipeline, config: Config, a: seq<Action>, mid: Pipeline, b: seq<Action>,
                                         to: Pipeline)
    requires Reaches(from, config, a, mid) && Reaches(mid, config, b, to)
    ensures Reaches(from, config, a + b, to)
    decreases |a|
  {
    if a == [] {
      assert a + b == b;
    } else {
      ReachesConcat(Next(from, config, a[0]), config, a[1..], mid, b, to);
      assert (a + b)[1..] == a[1..] + b;
    }
  }

  /** Two codes with one virtual key: press both, release the second, release the first. The last key-up is ignored,
      because its virtual key is no longer reported, and the first key stays down. */
  lemma SharedVirtualKeySticks(config: Config, codes: iset<Code>, a: Code, b: Code)
    requires a in codes && b in codes && a != b
    requires config.keymap.Supports(a) && config.keymap.Supports(b)
    requires config.keymap.virtualKey(a) == config.keymap.virtualKey(b)
    ensures !NoKeySticks(config, codes)
  {
    var actions, end := StickingRun(config, codes, a, b);
    assert !HeldOnceDrained(config, codes, 0, actions, end);
  }

  /** Two key events in a row. */
  lemma KeyPairRuns(p: Pipeline, config: Config, first: Event, second: Event) returns (q: Pipeline)
    requires Quiet(p) && p.handler.sequence.lastReceived == 0
    requires (first.KeyDown? && second.KeyDown?) || (first.KeyUp? && second.KeyUp?)
    requires first.sequenceId == second.sequenceId == 0 && first.code != second.code
    requires config.keymap.Supports(first.code) && config.keymap.Supports(second.code)
    requires p.manager.Phase(first.code) == p.manager.Phase(second.code) == if first.KeyDown? then Released else Pressed
    ensures Reaches(p, config, KeyActions(first) + KeyActions(second), q)
    ensures Quiet(q) && q.handler.sequence.lastReceived == 0
    ensures q.manager.Phase(first.code) == q.manager.Phase(second.code) == if first.KeyDown? then Pressed else Released
    ensures var one := Deliver(config.keymap, p.handler.keyboard, KeyMessage(first.code, first.KeyDown?, 0));
            q.handler.keyboard == Deliver(config.keymap, one, KeyMessage(second.code, second.KeyDown?, 0))
    ensures HarmlessPair(p, config, first, second) ==> Smooth(p, config, KeyActions(first) + KeyActions(second))
  {
    var mid := KeyEventRuns(p, config, first);
    q := KeyEventRuns(mid, config, second);
    ReachesConcat(p, config, KeyActions(first), mid, KeyActions(second), q);
    if HarmlessPair(p, config, first, second) {
      HarmlessIsNotDangerous(p, config, first, second, mid);
      SmoothConcat(p, config, KeyActions(first), mid, KeyActions(second));
    }
  }

  /** Two releases, or the first two presses of codes with one virtual key. */
  ghost predicate HarmlessPair(p: Pipeline, config: Config, first: Event, second: Event)
    requires (first.KeyDown? && second.KeyDown?) || (first.KeyUp? && second.KeyUp?)
  {
    first.KeyDown? ==>
      p.manager == IDLE && config.keymap.virtualKey(first.code) == config.keymap.virtualKey(second.code)
  }

  lemma HarmlessIsNotDangerous(p: Pipeline, config: Config, first: Event, second: Event, mid: Pipeline)
    requires (first.KeyDown? && second.KeyDown?) || (first.KeyUp? && second.KeyUp?)
    requires HarmlessPair(p, config, first, second)
    requires first.KeyDown? ==> mid.manager == p.manager.(keys := p.manager.keys[first.code := KeyInfo(Pressed, 0)])
    ensures NotDangerous(p, config, first) && NotDangerous(mid, config, second)
  {
    if first.KeyDown? {
      assert VirtualKeys(config.keymap, p.manager.PressedKeys()) == {};
      assert mid.manager.PressedKeys() == {first.code};
      assert VirtualKeys(config.keymap, {first.code}) == {config.keymap.virtualKey(first.code)};
    }
  }

  lemma {:induction false} SmoothConcat(from: Pipeline, config: Config, a: seq<Action>, mid: Pipeline, b: seq<Action>)
    requires Reaches(from, config, a, mid) && Smooth(from, config, a) && Smooth(mid, config, b)
    ensures Smooth(from, config, a + b)
    decreases |a|
  {
    if a == [] {
      assert a + b == b;
    } else {
      SmoothConcat(Next(from, config, a[0]), config, a[1..], mid, b);
      assert (a + b)[1..] == a[1..] + b;
    }
  }

  lemma StickingRun(config: Config, codes: iset<Code>, a: Code, b: Code) returns (actions: seq<Action>, end: Pipeline)
    requires a in codes && b in codes && a != b
    requires config.keymap.Supports(a) && config.keymap.Supports(b)
    requires config.keymap.virtualKey(a) == config.keymap.virtualKey(b)
    ensures Reaches(Start(0), config, actions, end) && UsesOnly(actions, codes) && Smooth(Start(0), config, actions)
    ensures end.transport == [] && end.handler.queue == []
    ensures a in end.handler.keyboard.down && a !in end.manager.PressedKeys()
  {
    var mid := KeyPairRuns(Start(0), config, KeyDown(a, 0), KeyDown(b, 0));
    end := KeyPairRuns(mid, config, KeyUp(b, 0), KeyUp(a, 0));
    StuckKeyboard(config, a, b);
    var presses := KeyActions(KeyDown(a, 0)) + KeyActions(KeyDown(b, 0));
    var releases := KeyActions(KeyUp(b, 0)) + KeyActions(KeyUp(a, 0));
    actions := presses + releases;
    ReachesConcat(Start(0), config, presses, mid, releases, end);
    SmoothConcat(Start(0), config, presses, mid, releases);
  }

  lemma StuckKeyboard(config: Config, a: Code, b: Code)
    requires a != b && config.keymap.Supports(a) && config.keymap.Supports(b)
    requires config.keymap.virtualKey(a) == config.keymap.virtualKey(b)
    ensures var k1 := Deliver(config.keymap, Keyboard({}, {}), KeyMessage(a, true, 0));
            var k2 := Deliver(config.keymap, k1, KeyMessage(b, true, 0));
            var k3 := Deliver(config.keymap, k2, KeyMessage(b, false, 0));
            a in Deliver(config.keymap, k3, KeyMessage(a, false, 0)).down
  {
  }

  // ---------------------------------------------------------------------------------------------
  // The host's own table
  // ---------------------------------------------------------------------------------------------

  function HostKeymap(): Keymap {
    Keymap((code: Code) => VirtualKey(code), (code: Code) => Blocked(code))
  }

  lemma HostKeymapInjective(codes: iset<Code>)
    ensures HostKeymap().InjectiveOn(codes) <==> !(Enter in codes && NumpadEnter in codes)
  {
    var keymap := HostKeymap();
    if Enter in codes && NumpadEnter in codes {
      assert keymap.Share(codes, Enter, NumpadEnter);
    } else {
      forall a, b
        ensures !keymap.Share(codes, a, b)
      {
        if keymap.Supports(a) && keymap.Supports(b) {
          SharedVirtualKey(a, b);
        }
      }
    }
  }

  /** With the host's table, whatever the limits and timeouts, no key ever sticks exactly when the client does not use
      both Enter keys. */
  lemma HostKeysStickOnlyOnEnter(config: Config, codes: iset<Code>)
    requires config.keymap == HostKeymap()
    ensures NoKeySticks(config, codes) <==> !(Enter in codes && NumpadEnter in codes)
  {
    NoKeySticksIff(config, codes);
    HostKeymapInjective(codes);
  }
}
