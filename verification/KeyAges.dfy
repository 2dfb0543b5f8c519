/**
 Stuck-key recovery, told in times: which keys a recovery releases, and how old a pressed key can get.
 */
module KeyAges {
  import opened KeyCodes
  import opened InputEvents
  import opened InputState
  import opened InputPipeline

  /** How long a key may be pressed: half the configured time, and all of it for Shift, Control, Alt and Windows
      keys. */
  function Patience(code: Code, timeout: nat): nat {
    match code
    case ShiftLeft => timeout
    case ShiftRight => timeout
    case ControlLeft => timeout
    case ControlRight => timeout
    case AltLeft => timeout
    case AltRight => timeout
    case MetaLeft => timeout
    case MetaRight => timeout
    case Unmapped(name) => if name == "OSLeft" || name == "OSRight" then timeout else timeout / 2
    case _ => timeout / 2
  }

  /** A key that the manager pressed at the given time. */
  predicate PressedAt(state: ManagerState, code: Code, time: nat) {
    code in state.keys && state.keys[code] == KeyInfo(Pressed, time)
  }

  /** One key after a check, for a 64-bit clock that is not behind the key's last event. */
  lemma PressedIffRecent(config: Config, p: Pipeline, order: seq<Code>, now: nat, code: Code, time: nat)
    requires Enabled(p, config, StuckKeyCheck(order, now))
    requires PressedAt(p.manager, code, time) && time <= now < time + WORD
    ensures var after := Next(p, config, StuckKeyCheck(order, now)).manager;
            && (PressedAt(after, code, time) <==> now - time <= Patience(code, config.stuckKeyTimeout))
            && (now - time > Patience(code, config.stuckKeyTimeout) ==> after.Phase(code) == Released)
  {
    ModifiersArePatient(code, config.stuckKeyTimeout);
  }

  lemma ModifiersArePatient(code: Code, timeout: nat)
    ensures Patience(code, timeout) == if IsModifier(code) then timeout else timeout / 2
  {
  }

  lemma LetterIsPressedIffRecent(config: Config, p: Pipeline, order: seq<Code>, now: nat, letter: char, time: nat)
    requires Enabled(p, config, StuckKeyCheck(order, now))
    requires PressedAt(p.manager, Key(letter), time) && time <= now < time + WORD
    ensures PressedAt(Next(p, config, StuckKeyCheck(order, now)).manager, Key(letter), time)
            <==> now - time <= config.stuckKeyTimeout / 2
  {
    PressedIffRecent(config, p, order, now, Key(letter), time);
  }

  // ---------------------------------------------------------------------------------------------
  // Every run
  // ---------------------------------------------------------------------------------------------

  /** The manager only presses and releases keys; Stuck is a phase between two assignments. */
  predicate NoneStuck(state: ManagerState) {
    forall code :: code in state.keys ==> state.keys[code].phase != Stuck
  }

  lemma StepKeepsNoneStuck(config: Config, p: Pipeline, action: Action)
    requires NoneStuck(p.manager) && Enabled(p, config, action)
    ensures NoneStuck(Next(p, config, action).manager)
  {
  }

  lemma {:induction false} RunKeepsNoneStuck(config: Config, from: Pipeline, actions: seq<Action>, to: Pipeline)
    requires NoneStuck(from.manager) && Reaches(from, config, actions, to)
    ensures NoneStuck(to.manager)
    decreases |actions|
  {
    if actions != [] {
      StepKeepsNoneStuck(config, from, actions[0]);
      RunKeepsNoneStuck(config, Next(from, config, actions[0]), actions[1..], to);
    }
  }

  /** The clock has not passed the last event of any key by 2^64 ms, and is not behind it. */
  predicate ClockFits(state: ManagerState, now: nat) {
    forall code :: code in state.keys ==> state.keys[code].lastEventTime <= now < state.keys[code].lastEventTime + WORD
  }

  /** In every state of every run: after a recovery tick no pressed key is older than its patience, and the tick has
      released no key within it and pressed none. */
  lemma RecoveryReleasesTheOld(config: Config, start: int, actions: seq<Action>, p: Pipeline, order: seq<Code>,
                               now: nat)
    requires Reaches(Start(start), config, actions, p)
    requires Enabled(p, config, StuckKeyCheck(order, now)) && ClockFits(p.manager, now)
    ensures var after := Next(p, config, StuckKeyCheck(order, now)).manager;
            && (forall code :: code in after.PressedKeys() ==>
                  now - after.keys[code].lastEventTime <= Patience(code, config.stuckKeyTimeout))
            && (forall code :: code in p.manager.PressedKeys() ==>
                  (code in after.PressedKeys() <==>
                   now - p.manager.keys[code].lastEventTime <= Patience(code, config.stuckKeyTimeout)))
            && after.PressedKeys() <= p.manager.PressedKeys()
            && (forall code :: code in order <==> code in p.manager.PressedKeys() - after.PressedKeys())
  {
    RunKeepsNoneStuck(config, Start(start), actions, p);
    var after := Next(p, config, StuckKeyCheck(order, now)).manager;
    RecoveryOnlyReleases(p.manager, InputState.StuckKeys(p.manager, now, config.stuckKeyTimeout), now);
    forall code | code in p.manager.PressedKeys()
      ensures code in after.PressedKeys() <==>
              now - p.manager.keys[code].lastEventTime <= Patience(code, config.stuckKeyTimeout)
      ensures code in after.PressedKeys() ==> after.keys[code] == p.manager.keys[code]
    {
      PressedIffRecent(config, p, order, now, code, p.manager.keys[code].lastEventTime);
    }
  }
}
