/**
 The keyboard handler: a bounded queue of key messages, sequence-gap recovery, the keys the client
 reported as down, and the state machine whose Down keys are what the host holds.
 */
module KeyInput {
  import opened KeyCodes

  /** A code-to-virtual-key table with the codes that are never injected. */
  datatype Keymap = Keymap(virtualKey: Code -> nat, blocked: Code -> bool)
  {
    predicate Supports(code: Code) {
      virtualKey(code) != 0 && !blocked(code)
    }

    ghost predicate Share(codes: iset<Code>, a: Code, b: Code) {
      a in codes && b in codes && a != b && Supports(a) && Supports(b) && virtualKey(a) == virtualKey(b)
    }

    /** No two supported codes of the set share a virtual key. */
    ghost predicate InjectiveOn(codes: iset<Code>) {
      forall a, b :: !Share(codes, a, b)
    }
  }

  const VK_TAB: nat := 0x09
  const VK_ESCAPE: nat := 0x1B
  const VK_F4: nat := 0x73
  const VK_LCONTROL: nat := 0xA2
  const VK_RCONTROL: nat := 0xA3
  const VK_LMENU: nat := 0xA4
  const VK_RMENU: nat := 0xA5

  /** Alt+Tab, Ctrl+Escape and Alt+F4, in either order of pressing. */
  predicate Dangerous(reported: set<nat>, vk: nat) {
    var altDown := VK_LMENU in reported || VK_RMENU in reported;
    var controlDown := VK_LCONTROL in reported || VK_RCONTROL in reported;
    var currentAlt := vk == VK_LMENU || vk == VK_RMENU;
    var currentControl := vk == VK_LCONTROL || vk == VK_RCONTROL;
    || (vk == VK_TAB && altDown) || (currentAlt && VK_TAB in reported)
    || (vk == VK_ESCAPE && controlDown) || (currentControl && VK_ESCAPE in reported)
    || (vk == VK_F4 && altDown) || (currentAlt && VK_F4 in reported)
  }

  datatype KeyMessage = KeyMessage(code: Code, isDown: bool, sequenceId: nat)

  /** The virtual keys the client reported as down and the codes the state machine holds down. */
  datatype Keyboard = Keyboard(reported: set<nat>, down: set<Code>)

  /** The keyboard after one message. A key-up only reaches the state machine when its virtual key is reported. */
  function Deliver(keymap: Keymap, keyboard: Keyboard, message: KeyMessage): Keyboard {
    var vk := keymap.virtualKey(message.code);
    if vk == 0 || keymap.blocked(message.code) then keyboard
    else if message.isDown then
      if Dangerous(keyboard.reported, vk) then keyboard
      else Keyboard(keyboard.reported + {vk}, keyboard.down + {message.code})
    else if vk in keyboard.reported then Keyboard(keyboard.reported - {vk}, keyboard.down - {message.code})
    else keyboard
  }

  /** The keyboard after a whole queue of messages, were no recovery to happen on the way. */
  function DeliverAll(keymap: Keymap, keyboard: Keyboard, messages: seq<KeyMessage>): Keyboard {
    if messages == [] then keyboard
    else Deliver(keymap, DeliverAll(keymap, keyboard, messages[..|messages| - 1]), messages[|messages| - 1])
  }

  lemma {:induction false} DeliverAllHead(keymap: Keymap, keyboard: Keyboard, messages: seq<KeyMessage>)
    requires messages != []
    ensures DeliverAll(keymap, keyboard, messages)
            == DeliverAll(keymap, Deliver(keymap, keyboard, messages[0]), messages[1..])
  {
    if |messages| > 1 {
      DeliverAllHead(keymap, keyboard, messages[..|messages| - 1]);
      assert messages[..|messages| - 1][1..] == messages[1..][..|messages[1..]| - 1];
    }
  }

  // ---------------------------------------------------------------------------------------------
  // Sequence gaps
  // ---------------------------------------------------------------------------------------------

  datatype SequenceState = SequenceState(
    lastReceived: nat,
    expected: nat,
    gapsDetected: nat,
    recoveriesTriggered: nat,
    lastRecoveryTime: int,
    recoveryThrottled: bool)

  const RECOVERY_INTERVAL_MS := 1000

  function FreshSequence(now: int): SequenceState {
    SequenceState(0, 0, 0, 0, now, false)
  }

  predicate GapDetected(state: SequenceState, sequenceId: nat) {
    !(state.lastReceived == 0 && state.expected == 0) && sequenceId > state.expected
  }

  /** A gap releases all keys unless a recovery ran less than a second ago. */
  predicate Recovers(state: SequenceState, sequenceId: nat, now: int) {
    GapDetected(state, sequenceId) && now - state.lastRecoveryTime >= RECOVERY_INTERVAL_MS
  }

  function AfterSequence(state: SequenceState, sequenceId: nat, now: int): SequenceState {
    var one := if Recovers(state, sequenceId, now) then 1 else 0;
    SequenceState(
      sequenceId, sequenceId + 1, state.gapsDetected + one, state.recoveriesTriggered + one,
      if one == 1 then now else state.lastRecoveryTime,
      if GapDetected(state, sequenceId) then one == 0 else state.recoveryThrottled)
  }

  function AfterSequences(state: SequenceState, ids: seq<nat>, times: seq<int>): SequenceState
    requires |ids| == |times|
  {
    if ids == [] then state
    else
      var last := |ids| - 1;
      AfterSequence(AfterSequences(state, ids[..last], times[..last]), ids[last], times[last])
  }

  /** Throttling over a whole run: whatever ids arrive, recoveries are at most one a second. */
  lemma {:induction false} RecoveriesAreThrottled(start: int, ids: seq<nat>, times: seq<int>)
    requires |ids| == |times|
    ensures var state := AfterSequences(FreshSequence(start), ids, times);
            && state.gapsDetected == state.recoveriesTriggered
            && RECOVERY_INTERVAL_MS * state.recoveriesTriggered <= state.lastRecoveryTime - start
            && (state.lastRecoveryTime == start || state.lastRecoveryTime in times)
  {
    if ids != [] {
      RecoveriesAreThrottled(start, ids[..|ids| - 1], times[..|ids| - 1]);
    }
  }

  class SequenceManager {
    var lastReceivedSeq: nat
    var expectedSeq: nat
    var gapsDetected: nat
    var recoveriesTriggered: nat
    var lastRecoveryTime: int
    var recoveryThrottled: bool

    constructor (now: int)
      ensures Value() == FreshSequence(now)
    {
      lastReceivedSeq, expectedSeq, gapsDetected, recoveriesTriggered := 0, 0, 0, 0;
      lastRecoveryTime, recoveryThrottled := now, false;
    }

    function Value(): SequenceState
      reads this
    {
      SequenceState(lastReceivedSeq, expectedSeq, gapsDetected, recoveriesTriggered, lastRecoveryTime,
                    recoveryThrottled)
    }

    /** Notes one sequence id; `recover` tells the caller to run the recovery callback. */
    method ProcessSequence(sequenceId: nat, now: int) returns (recover: bool)
      modifies this
      ensures Value() == AfterSequence(old(Value()), sequenceId, now)
      ensures recover == Recovers(old(Value()), sequenceId, now)
    {
      recover := false;
      if !(lastReceivedSeq == 0 && expectedSeq == 0) && sequenceId > expectedSeq {
        recoveryThrottled := now - lastRecoveryTime < RECOVERY_INTERVAL_MS;
        if !recoveryThrottled {
          gapsDetected := gapsDetected + 1;
          recoveriesTriggered := recoveriesTriggered + 1;
          lastRecoveryTime := now;
          recover := true;
        }
      }
      lastReceivedSeq := sequenceId;
      expectedSeq := sequenceId + 1;
    }
  }

  // ---------------------------------------------------------------------------------------------
  // The key state machine
  // ---------------------------------------------------------------------------------------------

  datatype KeyState = Up | Down

  class KeyStateFsm {
    var keyStates: map<Code, KeyState>

    constructor ()
      ensures DownKeys() == {}
    {
      keyStates := map[];
    }

    function DownKeys(): set<Code>
      reads this
    {
      set code | code in keyStates && keyStates[code] == Down
    }

    /** Accepts a transition exactly when it changes the key's state. */
    method ProcessKeyEvent(code: Code, isDown: bool) returns (accepted: bool)
      modifies this
      ensures accepted <==> (isDown <==> code !in old(DownKeys()))
      ensures DownKeys() == if isDown then old(DownKeys()) + {code} else old(DownKeys()) - {code}
    {
      if code !in keyStates {
        keyStates := keyStates[code := Up];
      }
      if isDown != (keyStates[code] == Up) {
        return false;
      }
      keyStates := keyStates[code := if isDown then Down else Up];
      return true;
    }

    /** Releases every key; `injected` are the key-ups sent to the system. */
    method ReleaseAllKeys() returns (injected: set<Code>)
      modifies this
      ensures injected == old(DownKeys())
      ensures DownKeys() == {}
    {
      injected := {};
      var todo := keyStates.Keys;
      while todo != {}
        invariant todo <= old(keyStates).Keys && keyStates.Keys == old(keyStates).Keys
        invariant forall code :: code in keyStates ==>
          keyStates[code] == if code in todo then old(keyStates)[code] else Up
        invariant forall code ::
          code in injected <==> code in old(keyStates) && old(keyStates)[code] == Down && code !in todo
        decreases |todo|
      {
        var code :| code in todo;
        if keyStates[code] == Down {
          injected := injected + {code};
        }
        keyStates := keyStates[code := Up];
        todo := todo - {code};
      }
    }
  }

  // ---------------------------------------------------------------------------------------------
  // The handler
  // ---------------------------------------------------------------------------------------------

  datatype HandlerState = HandlerState(queue: seq<KeyMessage>, keyboard: Keyboard, sequence: SequenceState)

  function QueueLimit(maxPendingMessages: int): nat {
    if maxPendingMessages > 16 then maxPendingMessages else 16
  }

  /** A full queue is cleared, and with it everything that was held. */
  function Enqueued(handler: HandlerState, maxPendingMessages: int, message: KeyMessage): HandlerState {
    if |handler.queue| >= QueueLimit(maxPendingMessages) then
      HandlerState([message], Keyboard({}, {}), handler.sequence)
    else handler.(queue := handler.queue + [message])
  }

  function AllUp(keyboard: Keyboard): Keyboard {
    keyboard.(down := {})
  }

  /** The handler after it took its oldest message. */
  function Polled(keymap: Keymap, handler: HandlerState, now: int): HandlerState
    requires handler.queue != []
  {
    var message := handler.queue[0];
    var before :=
      if Recovers(handler.sequence, message.sequenceId, now) then AllUp(handler.keyboard) else handler.keyboard;
    HandlerState(
      handler.queue[1..],
      Deliver(keymap, before, message),
      AfterSequence(handler.sequence, message.sequenceId, now))
  }

  class KeyHandler {
    const keymap: Keymap
    const maxPendingMessages: int
    const keyStateFsm: KeyStateFsm
    const sequenceManager: SequenceManager
    var keyboardMessageQueue: seq<KeyMessage>
    var clientReportedKeysDown: set<nat>

    constructor (keymap: Keymap, maxPendingMessages: int, now: int)
      ensures this.keymap == keymap && this.maxPendingMessages == maxPendingMessages
      ensures fresh(keyStateFsm) && fresh(sequenceManager)
      ensures Value() == HandlerState([], Keyboard({}, {}), FreshSequence(now))
    {
      this.keymap := keymap;
      this.maxPendingMessages := maxPendingMessages;
      keyStateFsm := new KeyStateFsm();
      sequenceManager := new SequenceManager(now);
      keyboardMessageQueue, clientReportedKeysDown := [], {};
    }

    function Value(): HandlerState
      reads this, keyStateFsm, sequenceManager
    {
      HandlerState(keyboardMessageQueue, Keyboard(clientReportedKeysDown, keyStateFsm.DownKeys()),
                   sequenceManager.Value())
    }

    method EnqueueMessage(message: KeyMessage)
      modifies this, keyStateFsm
      ensures Value() == Enqueued(old(Value()), maxPendingMessages, message)
    {
      var overflowed := false;
      var maxPending := if maxPendingMessages > 16 then maxPendingMessages else 16;
      if |keyboardMessageQueue| >= maxPending {
        keyboardMessageQueue := [];
        overflowed := true;
      }
      keyboardMessageQueue := keyboardMessageQueue + [message];
      if overflowed {
        var _ := keyStateFsm.ReleaseAllKeys();
        clientReportedKeysDown := {};
      }
    }

    /** One turn of the polling loop. */
    method PollMessage(now: int)
      requires keyboardMessageQueue != []
      modifies this, keyStateFsm, sequenceManager
      ensures Value() == Polled(keymap, old(Value()), now)
    {
      var message := keyboardMessageQueue[0];
      keyboardMessageQueue := keyboardMessageQueue[1..];
      var recover := sequenceManager.ProcessSequence(message.sequenceId, now);
      if recover {
        var _ := keyStateFsm.ReleaseAllKeys();
      }
      var vk := keymap.virtualKey(message.code);
      if vk == 0 {
        return;
      }
      if keymap.blocked(message.code) {
        return;
      }
      if message.isDown && Dangerous(clientReportedKeysDown, vk) {
        return;
      }
      var simulateAction := false;
      if message.isDown {
        if vk !in clientReportedKeysDown {
          clientReportedKeysDown := clientReportedKeysDown + {vk};
        }
        simulateAction := true;
      } else if vk in clientReportedKeysDown {
        clientReportedKeysDown := clientReportedKeysDown - {vk};
        simulateAction := true;
      }
      if simulateAction {
        var _ := keyStateFsm.ProcessKeyEvent(message.code, message.isDown);
      }
    }

    method ReleaseAllKeysEmergency()
      modifies keyStateFsm
      ensures Value() == old(Value()).(keyboard := AllUp(old(Value()).keyboard))
    {
      var _ := keyStateFsm.ReleaseAllKeys();
    }
  }
}
