/**
 The input transport layer: a bounded queue with move coalescing that is cleared on overflow,
 filled by the data channel thread and emptied by the processing thread.
 */
module InputTransport {
  import opened Common
  import opened KeyCodes
  import opened InputEvents

  /** A move that arrives behind a stored move replaces it. */
  predicate Coalesces(queue: seq<Event>, event: Event) {
    event.IsMouseMove() && queue != [] && queue[|queue| - 1].IsMouseMove()
  }

  predicate Overflows(queue: seq<Event>, maxPending: int, event: Event) {
    !Coalesces(queue, event) && |queue| >= Max(1, maxPending)
  }

  /** The queue after one authorized event. */
  function Enqueued(queue: seq<Event>, maxPending: int, event: Event): seq<Event> {
    if Coalesces(queue, event) then queue[..|queue| - 1] + [event]
    else if Overflows(queue, maxPending, event) then
      if event.IsRelease() then [InputReset, event] else [InputReset]
    else queue + [event]
  }

  /** The queue, the authorized session, which is empty when there is none, and the counters. */
  datatype LayerState = LayerState(queue: seq<Event>, authorized: string, received: nat, processed: nat, dropped: nat)

  predicate Admits(authorized: string, valid: bool, sessionId: string) {
    valid && authorized != "" && sessionId == authorized
  }

  /** The messages that an overflow throws away: the stored ones, and the new one unless it is a release. */
  function ThrownAway(queue: seq<Event>, event: Event): nat {
    |queue| + if event.IsRelease() then 0 else 1
  }

  /** The layer after a message of any session, valid or not. */
  function Received(s: LayerState, maxPending: int, valid: bool, sessionId: string, event: Event): LayerState {
    if !Admits(s.authorized, valid, sessionId) then s.(dropped := s.dropped + 1)
    else s.(queue := Enqueued(s.queue, maxPending, event), received := s.received + 1,
            dropped := s.dropped + if Overflows(s.queue, maxPending, event) then ThrownAway(s.queue, event) else 0)
  }

  class Layer {
    const maxPendingMessages: int
    var messageQueue: seq<Event>
    var authorizedSessionId: string
    var messagesReceived: nat
    var messagesProcessed: nat
    var messagesDropped: nat

    constructor (maxPendingMessages: int)
      ensures this.maxPendingMessages == maxPendingMessages
      ensures messageQueue == [] && authorizedSessionId == ""
      ensures messagesReceived == messagesProcessed == messagesDropped == 0
    {
      this.maxPendingMessages := maxPendingMessages;
      messageQueue := [];
      authorizedSessionId := "";
      messagesReceived, messagesProcessed, messagesDropped := 0, 0, 0;
    }

    function Value(): LayerState
      reads this
    {
      LayerState(messageQueue, authorizedSessionId, messagesReceived, messagesProcessed, messagesDropped)
    }

    predicate Accepts(valid: bool, sessionId: string)
      reads this
    {
      Admits(authorizedSessionId, valid, sessionId)
    }

    /** Stores one event; `overflowed` tells the caller to run the reset handler. */
    method EnqueueMessage(valid: bool, sessionId: string, event: Event) returns (overflowed: bool)
      modifies this`messageQueue, this`messagesReceived, this`messagesDropped
      ensures Value() == Received(old(Value()), maxPendingMessages, valid, sessionId, event)
      ensures !old(Accepts(valid, sessionId)) ==>
                !overflowed && messageQueue == old(messageQueue) && messagesReceived == old(messagesReceived) &&
                messagesDropped == old(messagesDropped) + 1
      ensures old(Accepts(valid, sessionId)) ==>
                && overflowed == Overflows(old(messageQueue), maxPendingMessages, event)
                && messageQueue == Enqueued(old(messageQueue), maxPendingMessages, event)
                && messagesReceived == old(messagesReceived) + 1
      // Every message that leaves the queue on an overflow, or never enters it, is counted as dropped.
      ensures old(Accepts(valid, sessionId)) && !Coalesces(old(messageQueue), event) ==>
                |old(messageQueue)| + 1 + (if overflowed then 1 else 0)
                == |messageQueue| + messagesDropped - old(messagesDropped)
    {
      overflowed := false;
      if !valid {
        messagesDropped := messagesDropped + 1;
        return;
      }
      if authorizedSessionId == "" || sessionId != authorizedSessionId {
        messagesDropped := messagesDropped + 1;
        return;
      }
      var dropped := 0;
      if event.IsMouseMove() && messageQueue != [] && messageQueue[|messageQueue| - 1].IsMouseMove() {
        messageQueue := messageQueue[|messageQueue| - 1 := event];
      } else if |messageQueue| >= Max(1, maxPendingMessages) {
        overflowed := true;
        dropped := |messageQueue|;
        messageQueue := [];
        messageQueue := messageQueue + [InputReset];
        if event.IsRelease() {
          messageQueue := messageQueue + [event];
        } else {
          dropped := dropped + 1;
        }
      } else {
        messageQueue := messageQueue + [event];
      }
      messagesReceived := messagesReceived + 1;
      messagesDropped := messagesDropped + dropped;
    }

    /** Hands the oldest message to the processing thread. */
    method Take() returns (event: Event)
      requires messageQueue != []
      modifies this`messageQueue, this`messagesProcessed
      ensures [event] + messageQueue == old(messageQueue)
      ensures messagesProcessed == old(messagesProcessed) + 1
      ensures Value() == old(Value()).(queue := messageQueue, processed := messagesProcessed)
    {
      event := messageQueue[0];
      messageQueue := messageQueue[1..];
      messagesProcessed := messagesProcessed + 1;
    }

    method AuthorizeSession(sessionId: string)
      modifies this`authorizedSessionId
      ensures authorizedSessionId == sessionId
    {
      authorizedSessionId := sessionId;
    }

    /** Ends the session; the queue is left as it is and the caller runs the reset handler. */
    method ClearAuthorizedSession()
      modifies this`authorizedSessionId
      ensures authorizedSessionId == ""
    {
      authorizedSessionId := "";
    }
  }

  // ---------------------------------------------------------------------------------------------
  // Runs of the layer: arrivals and deliveries in any order
  // ---------------------------------------------------------------------------------------------

  datatype Action = Arrive(event: Event) | Deliver

  /** The queue with what was accepted and what was delivered so far. */
  datatype Run = Run(queue: seq<Event>, accepted: seq<Event>, delivered: seq<Event>)

  const START := Run([], [], [])

  predicate Enabled(run: Run, action: Action) {
    action.Deliver? ==> run.queue != []
  }

  function Step(run: Run, maxPending: int, action: Action): Run
    requires Enabled(run, action)
  {
    match action
    case Arrive(event) => Run(Enqueued(run.queue, maxPending, event), run.accepted + [event], run.delivered)
    case Deliver => Run(run.queue[1..], run.accepted, run.delivered + [run.queue[0]])
  }

  ghost predicate Reaches(from: Run, maxPending: int, actions: seq<Action>, to: Run)
    decreases |actions|
  {
    if actions == [] then from == to
    else Enabled(from, actions[0]) && Reaches(Step(from, maxPending, actions[0]), maxPending, actions[1..], to)
  }

  /** No arrival of the run finds the queue full. */
  ghost predicate NeverOverflows(from: Run, maxPending: int, actions: seq<Action>)
    decreases |actions|
  {
    actions != [] ==>
      && Enabled(from, actions[0])
      && (actions[0].Arrive? ==> !Overflows(from.queue, maxPending, actions[0].event))
      && NeverOverflows(Step(from, maxPending, actions[0]), maxPending, actions[1..])
  }

  /** Two streams with the same non-move events and the same effect on what is held. */
  ghost predicate SameMeaning(supported: Code -> bool, held: Held, a: seq<Event>, b: seq<Event>) {
    NonMoves(a) == NonMoves(b) && ApplyAll(supported, held, a) == ApplyAll(supported, held, b)
  }

  /** The delivered and the stored events together mean what the accepted events mean. */
  ghost predicate Faithful(run: Run, supported: Code -> bool, held: Held) {
    SameMeaning(supported, held, run.delivered + run.queue, run.accepted)
  }

  /** Coalescing preserves meaning: on a run without overflow, replaying what was delivered and then what is
      stored gives the held keys and buttons, the pointer position and the position at every non-move event
      that all accepted events give, and no non-move event is lost, repeated or reordered. */
  lemma CoalescingPreservesMeaning(maxPending: int, actions: seq<Action>, to: Run, supported: Code -> bool, held: Held)
    requires Reaches(START, maxPending, actions, to)
    requires NeverOverflows(START, maxPending, actions)
    ensures ApplyAll(supported, held, to.delivered + to.queue) == ApplyAll(supported, held, to.accepted)
    ensures NonMoves(to.delivered + to.queue) == NonMoves(to.accepted)
  {
    FaithfulAlongRun(START, maxPending, actions, to, supported, held);
  }

  lemma {:induction false} FaithfulAlongRun(from: Run, maxPending: int, actions: seq<Action>, to: Run,
                                            supported: Code -> bool, held: Held)
    requires Faithful(from, supported, held)
    requires Reaches(from, maxPending, actions, to)
    requires NeverOverflows(from, maxPending, actions)
    ensures Faithful(to, supported, held)
    decreases |actions|
  {
    if actions != [] {
      StepKeepsFaithful(from, maxPending, actions[0], supported, held);
      FaithfulAlongRun(Step(from, maxPending, actions[0]), maxPending, actions[1..], to, supported, held);
    }
  }

  /** One more event at the end of both streams. */
  lemma OneMoreEvent(supported: Code -> bool, held: Held, a: seq<Event>, b: seq<Event>, event: Event)
    requires SameMeaning(supported, held, a, b)
    ensures SameMeaning(supported, held, a + [event], b + [event])
  {
    assert (a + [event])[..|a|] == a;
    assert (b + [event])[..|b|] == b;
  }

  /** A move that replaces the move before it means the same as both. */
  lemma ReplacedMove(supported: Code -> bool, held: Held, before: seq<Event>, last: Event, move: Event)
    requires last.IsMouseMove() && move.IsMouseMove()
    ensures SameMeaning(supported, held, before + [move], before + [last] + [move])
  {
    MoveAbsorbsMove(supported, held, before, last, move);
    assert before + [last] + [move] == before + [last, move];
    assert (before + [move])[..|before|] == before;
    assert (before + [last])[..|before|] == before;
    assert (before + [last] + [move])[..|before| + 1] == before + [last];
  }

  /** A stream that ends in a move, with that move replaced by the next. */
  lemma CoalescedKeepsMeaning(supported: Code -> bool, held: Held, stream: seq<Event>, accepted: seq<Event>,
                              move: Event)
    requires SameMeaning(supported, held, stream, accepted)
    requires stream != [] && stream[|stream| - 1].IsMouseMove() && move.IsMouseMove()
    ensures SameMeaning(supported, held, stream[..|stream| - 1] + [move], accepted + [move])
  {
    var before, last := stream[..|stream| - 1], stream[|stream| - 1];
    assert stream == before + [last];
    OneMoreEvent(supported, held, stream, accepted, move);
    ReplacedMove(supported, held, before, last, move);
  }

  lemma StepKeepsFaithful(run: Run, maxPending: int, action: Action, supported: Code -> bool, held: Held)
    requires Faithful(run, supported, held) && Enabled(run, action)
    requires action.Arrive? ==> !Overflows(run.queue, maxPending, action.event)
    ensures Faithful(Step(run, maxPending, action), supported, held)
  {
    var stream := run.delivered + run.queue;
    if action.Deliver? {
      assert run.delivered + [run.queue[0]] + run.queue[1..] == stream;
    } else if Coalesces(run.queue, action.event) {
      assert run.delivered + (run.queue[..|run.queue| - 1] + [action.event]) == stream[..|stream| - 1] + [action.event];
      CoalescedKeepsMeaning(supported, held, stream, run.accepted, action.event);
    } else {
      assert run.delivered + (run.queue + [action.event]) == stream + [action.event];
      OneMoreEvent(supported, held, stream, run.accepted, action.event);
    }
  }

  /** Overflow or not, the queue never holds more than max(2, maxPending) messages. */
  lemma {:induction false} QueueIsBounded(from: Run, maxPending: int, actions: seq<Action>, to: Run)
    requires Reaches(from, maxPending, actions, to)
    requires |from.queue| <= Max(2, maxPending)
    ensures |to.queue| <= Max(2, maxPending)
    decreases |actions|
  {
    if actions != [] {
      QueueIsBounded(Step(from, maxPending, actions[0]), maxPending, actions[1..], to);
    }
  }
}
