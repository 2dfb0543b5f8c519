/**
 The input state manager: the pressed keys and buttons, de-duplication of transitions, and the two
 releases it can force, the emergency release of everything and the recovery of keys held too long.
 */
module InputState {
  import opened KeyCodes
  import opened InputEvents

  const WORD := 0x1_0000_0000_0000_0000

  datatype KeyPhase = Released | Pressed | Stuck

  datatype KeyInfo = KeyInfo(phase: KeyPhase, lastEventTime: nat)

  datatype ButtonPhase = ButtonUp | ButtonDown | DoubleClick

  datatype ManagerState = ManagerState(
    keys: map<Code, KeyInfo>,
    buttons: map<int, ButtonPhase>,
    position: Point)
  {
    function Phase(code: Code): KeyPhase {
      if code in keys then keys[code].phase else Released
    }

    function ButtonState(button: int): ButtonPhase {
      if button in buttons then buttons[button] else ButtonUp
    }

    /** The keys the manager takes for held. */
    function PressedKeys(): set<Code> {
      set code | code in keys && keys[code].phase != Released
    }

    function PressedButtons(): set<int> {
      set button | button in buttons && buttons[button] != ButtonUp
    }
  }

  const IDLE := ManagerState(map[], map[], Point(0, 0))

  /** Timeouts are unsigned 64-bit: a clock that steps back makes the difference huge. */
  predicate TimedOut(code: Code, info: KeyInfo, now: nat, stuckKeyTimeout: nat) {
    info.phase == Pressed &&
    (now - info.lastEventTime) % WORD > if IsModifier(code) then stuckKeyTimeout else stuckKeyTimeout / 2
  }

  function StuckKeys(state: ManagerState, now: nat, stuckKeyTimeout: nat): set<Code> {
    set code | code in state.keys && TimedOut(code, state.keys[code], now, stuckKeyTimeout)
  }

  /** The state with the given keys released. */
  function WithReleased(state: ManagerState, codes: set<Code>, now: nat): ManagerState {
    state.(keys := map code | code in state.keys ::
      if code in codes then KeyInfo(Released, now) else state.keys[code])
  }

  function WithAllReleased(state: ManagerState, now: nat): ManagerState {
    WithReleased(state, state.PressedKeys(), now).(buttons := ButtonsUp(state.buttons))
  }

  function ButtonsUp<T>(buttons: map<T, ButtonPhase>): map<T, ButtonPhase> {
    map button | button in buttons :: ButtonUp
  }

  /** The state after one event other than a reset, and whether the event is passed on. */
  function AfterEvent(supported: Code -> bool, state: ManagerState, event: Event, now: nat): (ManagerState, bool)
    requires !event.InputReset?
  {
    match event
    case KeyDown(code, _) =>
      if !supported(code) || state.Phase(code) == Pressed then (state, false)
      else (state.(keys := state.keys[code := KeyInfo(Pressed, now)]), true)
    case KeyUp(code, _) =>
      if !supported(code) || state.Phase(code) == Released then (state, false)
      else (state.(keys := state.keys[code := KeyInfo(Released, now)]), true)
    case MouseMove(to) => (state.(position := to), true)
    case MouseDown(button, _) =>
      if state.ButtonState(button) == ButtonDown then (state, false)
      else (state.(buttons := state.buttons[button := ButtonDown]), true)
    case MouseUp(button, _) =>
      if state.ButtonState(button) == ButtonUp then (state, false)
      else (state.(buttons := state.buttons[button := ButtonUp]), true)
    case Wheel(_, _, _) => (state, true)
  }

  /** `order` lists each element of `codes` once. */
  ghost predicate Enumerates<T(!new)>(order: seq<T>, codes: set<T>) {
    && (forall code :: code in order <==> code in codes)
    && (forall i, j :: 0 <= i < j < |order| ==> order[i] != order[j])
  }

  /** The keys of `codes` that are no longer to do are released; all other keys are as before. */
  ghost predicate ReleasedBut(keys: map<Code, KeyInfo>, before: map<Code, KeyInfo>, codes: set<Code>, todo: set<Code>,
                              now: nat) {
    && keys.Keys == before.Keys
    && forall code :: code in keys ==>
      keys[code] == if code in codes && code !in todo then KeyInfo(Released, now) else before[code]
  }

  lemma AllReleasedKeys(keys: map<Code, KeyInfo>, before: ManagerState, codes: set<Code>, now: nat)
    requires ReleasedBut(keys, before.keys, codes, {}, now)
    ensures keys == WithReleased(before, codes, now).keys
  {
  }

  lemma SomeElement<T>(elements: set<T>) returns (element: T)
    requires elements != {}
    ensures element in elements
  {
    element :| element in elements;
  }

  /** The buttons that are no longer to do are up; all others are as before. */
  ghost predicate UpBut<T>(buttons: map<T, ButtonPhase>, before: map<T, ButtonPhase>, todo: set<T>) {
    && buttons.Keys == before.Keys
    && forall button :: button in buttons ==> buttons[button] == if button in todo then before[button] else ButtonUp
  }

  lemma OneMoreUp<T>(buttons: map<T, ButtonPhase>, before: map<T, ButtonPhase>, todo: set<T>, button: T)
    requires UpBut(buttons, before, todo) && button in todo && todo <= before.Keys
    ensures button in buttons && buttons[button] == before[button]
    ensures UpBut(buttons[button := ButtonUp], before, todo - {button})
    ensures buttons[button] == ButtonUp ==> UpBut(buttons, before, todo - {button})
  {
  }

  lemma AllButtonsUp<T>(buttons: map<T, ButtonPhase>, before: map<T, ButtonPhase>)
    requires UpBut(buttons, before, {})
    ensures buttons == ButtonsUp(before)
  {
  }

  lemma EnumeratesOneMore<T(!new)>(order: seq<T>, codes: set<T>, code: T)
    requires Enumerates(order, codes) && code !in codes
    ensures Enumerates(order + [code], codes + {code})
  {
  }

  lemma OneMoreReleased(keys: map<Code, KeyInfo>, before: map<Code, KeyInfo>, codes: set<Code>, todo: set<Code>,
                        code: Code, order: seq<Code>, now: nat)
    requires ReleasedBut(keys, before, codes, todo, now) && Enumerates(order, codes - todo)
    requires code in codes && code in todo && code in keys
    ensures ReleasedBut(keys[code := KeyInfo(Released, now)], before, codes, todo - {code}, now)
    ensures Enumerates(order + [code], codes - (todo - {code}))
  {
    EnumeratesOneMore(order, codes - todo, code);
    assert codes - (todo - {code}) == codes - todo + {code};
  }

  class Manager {
    const supported: Code -> bool
    const enableStuckKeyRecovery: bool
    const stuckKeyTimeout: nat
    var keyStates: map<Code, KeyInfo>
    var mouseButtonStates: map<int, ButtonPhase>
    var currentMousePosition: Point

    constructor (supported: Code -> bool, enableStuckKeyRecovery: bool, stuckKeyTimeout: nat)
      ensures this.supported == supported
      ensures this.enableStuckKeyRecovery == enableStuckKeyRecovery && this.stuckKeyTimeout == stuckKeyTimeout
      ensures Value() == IDLE
    {
      this.supported := supported;
      this.enableStuckKeyRecovery := enableStuckKeyRecovery;
      this.stuckKeyTimeout := stuckKeyTimeout;
      keyStates, mouseButtonStates, currentMousePosition := map[], map[], Point(0, 0);
    }

    function Value(): ManagerState
      reads this
    {
      ManagerState(keyStates, mouseButtonStates, currentMousePosition)
    }

    /** Updates the state for one event; `forwarded` tells the caller to pass the event on. */
    method ProcessEvent(event: Event, now: nat) returns (forwarded: bool)
      requires !event.InputReset?
      modifies this
      ensures (Value(), forwarded) == AfterEvent(supported, old(Value()), event, now)
    {
      match event
      case MouseMove(to) =>
        currentMousePosition := to;
        return true;
      case Wheel(_, _, _) =>
        return true;
      case KeyDown(code, _) =>
        forwarded := ProcessKey(code, Pressed, now);
      case KeyUp(code, _) =>
        forwarded := ProcessKey(code, Released, now);
      case MouseDown(button, _) =>
        forwarded := ProcessButton(button, ButtonDown);
      case MouseUp(button, _) =>
        forwarded := ProcessButton(button, ButtonUp);
    }

    method ProcessKey(code: Code, newState: KeyPhase, now: nat) returns (forwarded: bool)
      modifies this`keyStates
      ensures forwarded <==> supported(code) && old(Value()).Phase(code) != newState
      ensures keyStates ==
              if forwarded then old(keyStates)[code := KeyInfo(newState, now)] else old(keyStates)
    {
      if !supported(code) {
        return false;
      }
      var oldState := if code in keyStates then keyStates[code].phase else Released;
      if oldState == newState {
        return false;
      }
      keyStates := keyStates[code := KeyInfo(newState, now)];
      return true;
    }

    method ProcessButton(button: int, newState: ButtonPhase) returns (forwarded: bool)
      modifies this`mouseButtonStates
      ensures forwarded <==> old(Value()).ButtonState(button) != newState
      ensures mouseButtonStates ==
              if forwarded then old(mouseButtonStates)[button := newState] else old(mouseButtonStates)
    {
      var oldState := if button in mouseButtonStates then mouseButtonStates[button] else ButtonUp;
      if oldState == newState {
        return false;
      }
      mouseButtonStates := mouseButtonStates[button := newState];
      return true;
    }

    /** Releases every key and button; `released` and `mouseUps` list the keys and buttons a synthetic release is
        owed for. */
    method EmergencyReleaseAllKeys(now: nat) returns (released: seq<Code>, mouseUps: seq<int>)
      modifies this`keyStates, this`mouseButtonStates
      ensures Value() == WithAllReleased(old(Value()), now)
      ensures Enumerates(released, old(Value()).PressedKeys())
      ensures Enumerates(mouseUps, old(Value()).PressedButtons())
    {
      released := ReleaseHeldKeys(now);
      mouseUps := ReleaseHeldButtons();
    }

    method ReleaseHeldButtons() returns (mouseUps: seq<int>)
      modifies this`mouseButtonStates
      ensures mouseButtonStates == ButtonsUp(old(mouseButtonStates))
      ensures Enumerates(mouseUps, old(Value()).PressedButtons())
    {
      ghost var held := Value().PressedButtons();
      mouseUps := [];
      var todo := mouseButtonStates.Keys;
      while todo != {}
        invariant todo <= old(mouseButtonStates).Keys
        invariant UpBut(mouseButtonStates, old(mouseButtonStates), todo)
        invariant Enumerates(mouseUps, held - todo)
        decreases |todo|
      {
        ghost var _ := SomeElement(todo);
        var button :| button in todo;
        OneMoreUp(mouseButtonStates, old(mouseButtonStates), todo, button);
        if mouseButtonStates[button] == ButtonDown || mouseButtonStates[button] == DoubleClick {
          EnumeratesOneMore(mouseUps, held - todo, button);
          mouseButtonStates := mouseButtonStates[button := ButtonUp];
          mouseUps := mouseUps + [button];
          assert held - (todo - {button}) == held - todo + {button};
        } else {
          assert held - (todo - {button}) == held - todo;
        }
        todo := todo - {button};
      }
      assert held - todo == held;
      AllButtonsUp(mouseButtonStates, old(mouseButtonStates));
    }

    method ReleaseHeldKeys(now: nat) returns (released: seq<Code>)
      modifies this`keyStates
      ensures keyStates == WithReleased(old(Value()), old(Value()).PressedKeys(), now).keys
      ensures Enumerates(released, old(Value()).PressedKeys())
    {
      ghost var pressed := Value().PressedKeys();
      released := [];
      var todo := keyStates.Keys;
      while todo != {}
        invariant todo <= old(keyStates).Keys
        invariant ReleasedBut(keyStates, old(keyStates), pressed, todo, now)
        invariant Enumerates(released, pressed - todo)
        decreases |todo|
      {
        var code :| code in todo;
        if keyStates[code].phase == Pressed || keyStates[code].phase == Stuck {
          OneMoreReleased(keyStates, old(keyStates), pressed, todo, code, released, now);
          keyStates := keyStates[code := KeyInfo(Released, now)];
          released := released + [code];
        } else {
          assert code !in pressed && pressed - (todo - {code}) == pressed - todo;
        }
        todo := todo - {code};
      }
      AllReleasedKeys(keyStates, old(Value()), pressed, now);
    }

    /** Marks a key as stuck and releases it, if the manager knows it; then a synthetic key-up is owed. */
    method RecoverStuckKeyLocked(code: Code, now: nat) returns (owed: bool)
      modifies this`keyStates
      ensures owed <==> code in old(keyStates)
      ensures keyStates == if owed then old(keyStates)[code := KeyInfo(Released, now)] else old(keyStates)
    {
      if code !in keyStates {
        return false;
      }
      keyStates := keyStates[code := keyStates[code].(phase := Stuck)];
      keyStates := keyStates[code := KeyInfo(Released, now)];
      return true;
    }

    /** Releases the keys that were pressed for too long and lists them. */
    method CheckForStuckKeys(now: nat) returns (recovered: seq<Code>)
      modifies this`keyStates
      ensures !enableStuckKeyRecovery ==> recovered == [] && Value() == old(Value())
      ensures enableStuckKeyRecovery ==>
                var stuck := StuckKeys(old(Value()), now, stuckKeyTimeout);
                && Enumerates(recovered, stuck)
                && Value() == WithReleased(old(Value()), stuck, now)
    {
      recovered := [];
      if !enableStuckKeyRecovery {
        return;
      }
      ghost var stuck := StuckKeys(Value(), now, stuckKeyTimeout);
      var todo := keyStates.Keys;
      while todo != {}
        invariant todo <= old(keyStates).Keys
        invariant ReleasedBut(keyStates, old(keyStates), stuck, todo, now)
        invariant Enumerates(recovered, stuck - todo)
        decreases |todo|
      {
        var code :| code in todo;
        if TimedOut(code, keyStates[code], now, stuckKeyTimeout) {
          OneMoreReleased(keyStates, old(keyStates), stuck, todo, code, recovered, now);
          var owed := RecoverStuckKeyLocked(code, now);
          if owed {
            recovered := recovered + [code];
          }
        } else {
          assert code !in stuck && stuck - (todo - {code}) == stuck - todo;
        }
        todo := todo - {code};
      }
      AllReleasedKeys(keyStates, old(Value()), stuck, now);
    }
  }

  // ---------------------------------------------------------------------------------------------
  // The manager refines the plain reading of the events
  // ---------------------------------------------------------------------------------------------

  /** What the manager's state says about held input; the trace is not its business. */
  function Project(state: ManagerState, trace: seq<(Event, Point)>): Held {
    Held(state.PressedKeys(), state.PressedButtons(), state.position, trace)
  }

  /** One message on the manager: a reset releases everything, any other event is processed. */
  function Processed(supported: Code -> bool, state: ManagerState, event: Event, now: nat): ManagerState {
    if event.InputReset? then WithAllReleased(state, now) else AfterEvent(supported, state, event, now).0
  }

  /** A stream of messages on the manager, each at its own time. */
  function ProcessedAll(supported: Code -> bool, state: ManagerState, events: seq<Event>, times: seq<nat>): ManagerState
    requires |times| == |events|
  {
    if events == [] then state
    else
      var last := |events| - 1;
      Processed(supported, ProcessedAll(supported, state, events[..last], times[..last]), events[last], times[last])
  }

  lemma EventMeansItsEffect(supported: Code -> bool, state: ManagerState, event: Event, now: nat,
                            trace: seq<(Event, Point)>)
    ensures var effect := Apply(supported, Project(state, trace), event);
            Project(Processed(supported, state, event, now), effect.trace) == effect
  {
    var next := Processed(supported, state, event, now);
    var effect := Apply(supported, Project(state, trace), event);
    assert next.PressedKeys() == effect.keys by {
      if event.InputReset? { AllReleasedHoldsNothing(state, now); }
    }
    assert next.PressedButtons() == effect.buttons by {
      if event.InputReset? { AllReleasedHoldsNothing(state, now); }
    }
  }

  lemma AllReleasedHoldsNothing(state: ManagerState, now: nat)
    ensures WithAllReleased(state, now).PressedKeys() == {}
    ensures WithAllReleased(state, now).PressedButtons() == {}
  {
    var next := WithAllReleased(state, now);
    assert forall button :: button in next.buttons ==> next.buttons[button] == ButtonUp;
  }

  /** Dropping repeated transitions changes nothing: whatever the timing, a stream of messages leaves the manager
      with exactly the keys, buttons and pointer position that the plain reading of the stream gives. */
  lemma {:induction false} ManagerMeansItsStream(supported: Code -> bool, state: ManagerState, events: seq<Event>,
                                                 times: seq<nat>, trace: seq<(Event, Point)>)
    requires |times| == |events|
    ensures var effect := ApplyAll(supported, Project(state, trace), events);
            Project(ProcessedAll(supported, state, events, times), effect.trace) == effect
  {
    if events != [] {
      var last := |events| - 1;
      ManagerMeansItsStream(supported, state, events[..last], times[..last], trace);
      EventMeansItsEffect(supported, ProcessedAll(supported, state, events[..last], times[..last]), events[last],
                          times[last], ApplyAll(supported, Project(state, trace), events[..last]).trace);
    }
  }

  lemma RecoveryOnlyReleases(state: ManagerState, codes: set<Code>, now: nat)
    ensures WithReleased(state, codes, now).PressedKeys() == state.PressedKeys() - codes
  {
    assert forall code :: code in state.keys ==> code in WithReleased(state, codes, now).keys;
  }

  // ---------------------------------------------------------------------------------------------
  // What is passed on
  // ---------------------------------------------------------------------------------------------

  /** Keys are pressed or released and buttons down or up; the other phases only pass by. */
  predicate Plain(state: ManagerState) {
    && (forall code :: code in state.keys ==> state.keys[code].phase != Stuck)
    && (forall button :: button in state.buttons ==> state.buttons[button] != DoubleClick)
  }

  lemma ProcessedIsPlain(supported: Code -> bool, state: ManagerState, event: Event, now: nat)
    requires Plain(state)
    ensures Plain(Processed(supported, state, event, now))
  {
  }

  lemma {:induction false} StreamIsPlain(supported: Code -> bool, events: seq<Event>, times: seq<nat>)
    requires |times| == |events|
    ensures Plain(ProcessedAll(supported, IDLE, events, times))
  {
    if events != [] {
      var last := |events| - 1;
      StreamIsPlain(supported, events[..last], times[..last]);
      ProcessedIsPlain(supported, ProcessedAll(supported, IDLE, events[..last], times[..last]), events[last],
                       times[last]);
    }
  }

  /** Behind any stream from the idle state, an event is passed on exactly if it is a move or a wheel turn, or
      changes the held keys or buttons; and time is noted for the key that changed. */
  lemma PassedOnIffNews(supported: Code -> bool, events: seq<Event>, times: seq<nat>, event: Event, now: nat)
    requires |times| == |events| && !event.InputReset?
    ensures var state := ProcessedAll(supported, IDLE, events, times);
            var (next, forwarded) := AfterEvent(supported, state, event, now);
            && (forwarded <==> || event.MouseMove? || event.Wheel? || next.PressedKeys() != state.PressedKeys()
                               || next.PressedButtons() != state.PressedButtons())
            && (forall code :: code in next.keys ==>
                  next.keys[code].lastEventTime ==
                  if (code in next.PressedKeys()) == (code in state.PressedKeys()) && code in state.keys
                  then state.keys[code].lastEventTime else now)
  {
    StreamIsPlain(supported, events, times);
    var state := ProcessedAll(supported, IDLE, events, times);
    PlainIsPassedOn(supported, state, event, now);
  }

  lemma PlainIsPassedOn(supported: Code -> bool, state: ManagerState, event: Event, now: nat)
    requires Plain(state) && !event.InputReset?
    ensures var (next, forwarded) := AfterEvent(supported, state, event, now);
            && (forwarded <==> || event.MouseMove? || event.Wheel? || next.PressedKeys() != state.PressedKeys()
                               || next.PressedButtons() != state.PressedButtons())
            && (forall code :: code in next.keys ==>
                  next.keys[code].lastEventTime ==
                  if (code in next.PressedKeys()) == (code in state.PressedKeys()) && code in state.keys
                  then state.keys[code].lastEventTime else now)
  {
    var (next, forwarded) := AfterEvent(supported, state, event, now);
    if event.KeyDown? && forwarded {
      assert event.code in next.PressedKeys() && event.code !in state.PressedKeys();
    } else if event.KeyUp? && forwarded {
      assert event.code !in next.PressedKeys() && event.code in state.PressedKeys();
    } else if event.MouseDown? && forwarded {
      assert event.button in next.PressedButtons() && event.button !in state.PressedButtons();
    } else if event.MouseUp? && forwarded {
      assert event.button !in next.PressedButtons() && event.button in state.PressedButtons();
    }
  }
}
