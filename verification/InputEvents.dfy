/**
 Validated input events, as the schema check hands them to the transport layer.
 */
module InputEvents {
  import opened KeyCodes

  datatype Point = Point(x: int, y: int)

  datatype Event =
    | KeyDown(code: Code, sequenceId: nat)
    | KeyUp(code: Code, sequenceId: nat)
    | MouseMove(to: Point)
    | MouseDown(button: int, at: Point)
    | MouseUp(button: int, at: Point)
    | Wheel(at: Point, deltaX: int, deltaY: int)
    | InputReset
  {
    predicate IsMouseMove() { MouseMove? }

    /** Release events survive a transport overflow. */
    predicate IsRelease() { KeyUp? || MouseUp? || InputReset? }
  }

  /** The events other than pointer moves, in order. */
  function NonMoves(events: seq<Event>): seq<Event> {
    if events == [] then []
    else
      var rest := NonMoves(events[..|events| - 1]);
      var last := events[|events| - 1];
      if last.IsMouseMove() then rest else rest + [last]
  }

  /** What a client holds and where its pointer is, with the pointer position at every non-move event. */
  datatype Held = Held(keys: set<Code>, buttons: set<int>, position: Point, trace: seq<(Event, Point)>)

  /** The effect of one event on what is held. A code outside `supported` has no effect. */
  function Apply(supported: Code -> bool, held: Held, event: Event): Held {
    match event
    case KeyDown(code, _) =>
      held.(keys := if supported(code) then held.keys + {code} else held.keys,
      trace := held.trace + [(event, held.position)])
    case KeyUp(code, _) =>
      held.(keys := if supported(code) then held.keys - {code} else held.keys,
      trace := held.trace + [(event, held.position)])
    case MouseMove(to) => held.(position := to)
    case MouseDown(button, _) =>
      held.(buttons := held.buttons + {button}, trace := held.trace + [(event, held.position)])
    case MouseUp(button, _) =>
      held.(buttons := held.buttons - {button}, trace := held.trace + [(event, held.position)])
    case Wheel(_, _, _) => held.(trace := held.trace + [(event, held.position)])
    case InputReset => held.(keys := {}, buttons := {}, trace := held.trace + [(event, held.position)])
  }

  /** The effect of a whole stream of events. */
  function ApplyAll(supported: Code -> bool, held: Held, events: seq<Event>): Held {
    if events == [] then held
    else Apply(supported, ApplyAll(supported, held, events[..|events| - 1]), events[|events| - 1])
  }

  lemma {:induction false} ApplyAllConcat(supported: Code -> bool, held: Held, a: seq<Event>, b: seq<Event>)
    ensures ApplyAll(supported, held, a + b) == ApplyAll(supported, ApplyAll(supported, held, a), b)
  {
    if b == [] {
      assert a + b == a;
    } else {
      ApplyAllConcat(supported, held, a, b[..|b| - 1]);
      assert (a + b)[..|a + b| - 1] == a + b[..|b| - 1];
    }
  }

  /** Of two moves in a row only the second has an effect. */
  lemma MoveAbsorbsMove(supported: Code -> bool, held: Held, before: seq<Event>, first: Event, second: Event)
    requires first.IsMouseMove() && second.IsMouseMove()
    ensures ApplyAll(supported, held, before + [first, second]) == ApplyAll(supported, held, before + [second])
  {
    ApplyAllConcat(supported, held, before + [first], [second]);
    ApplyAllConcat(supported, held, before, [first]);
    ApplyAllConcat(supported, held, before, [second]);
    assert before + [first, second] == before + [first] + [second];
    var h := ApplyAll(supported, held, before);
    assert forall g: Held, e: Event :: ApplyAll(supported, g, [e]) == Apply(supported, g, e) by {
      forall g: Held, e: Event
        ensures ApplyAll(supported, g, [e]) == Apply(supported, g, e)
      {
        assert [e][..0] == [];
      }
    }
  }
}
