/**
 The transport layer across sessions: which messages get into its queue, what an overflow leaves, and what
 becomes of every message that ever arrived.
 */
module InputAdmission {
  import opened Common
  import opened KeyCodes
  import opened InputEvents
  import opened InputTransport

  // ---------------------------------------------------------------------------------------------
  // One message
  // ---------------------------------------------------------------------------------------------

  function Capacity(maxPending: int): nat {
    if maxPending > 1 then maxPending else 1
  }

  predicate EndsInMove(queue: seq<Event>) {
    queue != [] && queue[|queue| - 1].MouseMove?
  }

  predicate Releases(event: Event) {
    event.KeyUp? || event.MouseUp? || event.InputReset?
  }

  /** A message that finds room is stored last and no other than a move is lost for it. One that does not find room, and
      is no move behind a move, leaves a reset and, exactly if it releases something, itself. */
  lemma ArrivalIsStored(queue: seq<Event>, maxPending: int, event: Event)
    ensures var next := Enqueued(queue, maxPending, event);
            if |queue| < Capacity(maxPending) || (event.MouseMove? && EndsInMove(queue)) then
              && next != [] && next[|next| - 1] == event && NonMoves(next) == NonMoves(queue + [event])
              && |next| == if event.MouseMove? && EndsInMove(queue) then |queue| else |queue| + 1
            else next == if Releases(event) then [InputReset, event] else [InputReset]
  {
    assert (queue + [event])[..|queue|] == queue;
    if event.MouseMove? && EndsInMove(queue) {
      assert (queue[..|queue| - 1] + [event])[..|queue| - 1] == queue[..|queue| - 1];
    }
  }

  // ---------------------------------------------------------------------------------------------
  // Runs
  // ---------------------------------------------------------------------------------------------

  datatype SessionAction =
    | Message(valid: bool, sessionId: string, event: Event)
    | Process
    | Authorize(sessionId: string)
    | ClearSession

  const NEW := LayerState([], "", 0, 0, 0)

  function After(maxPending: int, actions: seq<SessionAction>): LayerState {
    if actions == [] then NEW
    else
      var s := After(maxPending, actions[..|actions| - 1]);
      match actions[|actions| - 1]
      case Message(valid, sessionId, event) => Received(s, maxPending, valid, sessionId, event)
      case Process => if s.queue == [] then s else s.(queue := s.queue[1..], processed := s.processed + 1)
      case Authorize(sessionId) => s.(authorized := sessionId)
      case ClearSession => s.(authorized := "")
  }

  /** The session that was authorized last, if it was not cleared since. */
  function Current(actions: seq<SessionAction>): string {
    if actions == [] then ""
    else
      match actions[|actions| - 1]
      case Authorize(sessionId) => sessionId
      case ClearSession => ""
      case _ => Current(actions[..|actions| - 1])
  }

  /** The valid messages of sessions that were current when they came. */
  function Entitled(actions: seq<SessionAction>): seq<Event> {
    if actions == [] then []
    else
      var before, last := actions[..|actions| - 1], actions[|actions| - 1];
      if last.Message? && last.valid && last.sessionId == Current(before) != "" then Entitled(before) + [last.event]
      else Entitled(before)
  }

  /** What a layer with only these messages would do: the run of arrivals and deliveries. */
  function Plain(maxPending: int, actions: seq<SessionAction>): Run {
    if actions == [] then START
    else
      var before, last := actions[..|actions| - 1], actions[|actions| - 1];
      var run := Plain(maxPending, before);
      if last.Message? && last.valid && last.sessionId == Current(before) != "" then
        Step(run, maxPending, Arrive(last.event))
      else if last.Process? && run.queue != [] then Step(run, maxPending, Deliver)
      else run
  }

  /** Over every run of messages, deliveries and changes of session, the layer does exactly what it would do with
      the valid messages of current sessions alone; it has received these and no others. */
  lemma {:induction false} OnlyEntitledMessages(maxPending: int, actions: seq<SessionAction>)
    ensures var s, run := After(maxPending, actions), Plain(maxPending, actions);
            && s.authorized == Current(actions)
            && s.queue == run.queue && s.processed == |run.delivered|
            && run.accepted == Entitled(actions) && s.received == |Entitled(actions)|
  {
    if actions != [] {
      OnlyEntitledMessages(maxPending, actions[..|actions| - 1]);
    }
  }

  /** No stored message comes from elsewhere: each one is a reset that the layer made, or entitled. */
  lemma {:induction false} StoredIsEntitled(maxPending: int, actions: seq<SessionAction>, event: Event)
    requires event in After(maxPending, actions).queue || event in Plain(maxPending, actions).delivered
    ensures event == InputReset || event in Entitled(actions)
  {
    OnlyEntitledMessages(maxPending, actions);
    if actions != [] {
      var before := actions[..|actions| - 1];
      OnlyEntitledMessages(maxPending, before);
      if event in After(maxPending, before).queue || event in Plain(maxPending, before).delivered {
        StoredIsEntitled(maxPending, before, event);
      }
    }
  }

  /** No two stored moves are next to each other. */
  ghost predicate MovesApart(queue: seq<Event>) {
    forall i :: 0 < i < |queue| ==> !(queue[i - 1].MouseMove? && queue[i].MouseMove?)
  }

  lemma {:induction false} MovesAreMerged(maxPending: int, actions: seq<SessionAction>)
    ensures MovesApart(After(maxPending, actions).queue)
  {
    if actions != [] {
      MovesAreMerged(maxPending, actions[..|actions| - 1]);
    }
  }

  // ---------------------------------------------------------------------------------------------
  // Every message is accounted for
  // ---------------------------------------------------------------------------------------------

  function Messages(actions: seq<SessionAction>): nat {
    if actions == [] then 0
    else Messages(actions[..|actions| - 1]) + if actions[|actions| - 1].Message? then 1 else 0
  }

  /** The moves that were replaced in the queue, and the resets that overflows put there. */
  function Replaced(maxPending: int, actions: seq<SessionAction>): (nat, nat) {
    if actions == [] then (0, 0)
    else
      var before, last := actions[..|actions| - 1], actions[|actions| - 1];
      var (moves, resets) := Replaced(maxPending, before);
      var queue := After(maxPending, before).queue;
      if last.Message? && last.valid && last.sessionId == Current(before) != "" then
        if last.event.MouseMove? && EndsInMove(queue) then (moves + 1, resets)
        else if |queue| >= Capacity(maxPending) then (moves, resets + 1)
        else (moves, resets)
      else (moves, resets)
  }

  /** Over every run: the messages that arrived and the resets made are the messages processed, stored, replaced and
      counted as dropped. */
  lemma {:induction false} MessagesAddUp(maxPending: int, actions: seq<SessionAction>)
    ensures var s, (moves, resets) := After(maxPending, actions), Replaced(maxPending, actions);
            Messages(actions) + resets == s.processed + |s.queue| + moves + s.dropped
  {
    if actions != [] {
      MessagesAddUp(maxPending, actions[..|actions| - 1]);
      OnlyEntitledMessages(maxPending, actions[..|actions| - 1]);
    }
  }
}
