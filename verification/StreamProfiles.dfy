/**
 The handshake over the stream profile: clients and the operator ask, the capture consumer takes what is
 pending, opens the encoder and reports back.
 */
module StreamProfiles {
  import opened Common

  datatype Profile = Profile(width: int, height: int, fps: int, bitrate: int)

  datatype Capabilities = Capabilities(maxWidth: int, maxHeight: int, maxFps: int, maxBitrate: int, h264: bool)

  datatype Limits = Limits(allow120Fps: bool, minBitrate: int, maxBitrate: int)

  datatype State = Configured | Pending | Active | Rejected

  datatype Handshake = Handshake(operatorDefault: Profile, requested: Option<Profile>, pending: Option<Profile>,
                                 active: Option<Profile>, requestedBySession: string, state: State, generation: nat)

  predicate Supported(limits: Limits, p: Profile) {
    && ((p.width == 1280 && p.height == 720) || (p.width == 1920 && p.height == 1080) ||
        (p.width == 2560 && p.height == 1440))
    && (p.fps == 30 || p.fps == 60 || (limits.allow120Fps && p.fps == 120))
    && limits.minBitrate <= p.bitrate <= limits.maxBitrate
  }

  predicate Within(p: Profile, c: Capabilities) {
    p.width <= c.maxWidth && p.height <= c.maxHeight && p.fps <= c.maxFps && p.bitrate <= c.maxBitrate
  }

  predicate Grants(limits: Limits, session: string, p: Profile, c: Capabilities) {
    session != "" && c.h264 && Within(p, c) && Supported(limits, p)
  }

  function ConfiguredLimits(allow120Fps: bool, bitrateMin: int, bitrateMax: int): (limits: Limits)
    ensures 500_000 <= limits.minBitrate <= limits.maxBitrate <= 50_000_000
  {
    var low := Clamp(bitrateMin, 500_000, 50_000_000);
    Limits(allow120Fps, low, Clamp(bitrateMax, low, 50_000_000))
  }

  /** A request that goes ahead, of a session or, with an empty name, of the operator. */
  function Asked(h: Handshake, p: Profile, session: string): Handshake {
    h.(requested := Some(p), pending := Some(p), requestedBySession := session, state := Pending,
       generation := h.generation + 1)
  }

  function Refused(h: Handshake, p: Profile, session: string): Handshake {
    h.(requested := Some(p), pending := None, requestedBySession := session, state := Rejected,
       generation := h.generation + 1)
  }

  function Requested(limits: Limits, h: Handshake, session: string, p: Profile, c: Capabilities): Handshake {
    if Grants(limits, session, p, c) then Asked(h, p, session) else Refused(h, p, session)
  }

  function Cleared(h: Handshake, session: string): Handshake {
    if h.requestedBySession != session then h else Asked(h, h.operatorDefault, "")
  }

  function Applied(h: Handshake, p: Profile): Handshake {
    if h.requested != Some(p) then h else h.(active := Some(p), state := Active)
  }

  function Failed(h: Handshake, p: Profile): Handshake {
    if h.requested != Some(p) then h else h.(state := Rejected)
  }

  class Manager {
    var limits: Limits
    var operatorDefault: Profile
    var requested: Option<Profile>
    var pending: Option<Profile>
    var active: Option<Profile>
    var requestedBySession: string
    var state: State
    var generation: nat

    ghost function Value(): Handshake
      reads this
    {
      Handshake(operatorDefault, requested, pending, active, requestedBySession, state, generation)
    }

    constructor ()
      ensures Value() == Handshake(Profile(1920, 1080, 60, 8_000_000), None, None, None, "", Configured, 0)
      ensures limits == Limits(false, 500_000, 50_000_000)
    {
      limits := Limits(false, 500_000, 50_000_000);
      operatorDefault := Profile(1920, 1080, 60, 8_000_000);
      requested, pending, active, requestedBySession, state, generation := None, None, None, "", Configured, 0;
    }

    /** The limits and the default change even when the default turns out to be unsupported; the handshake starts
        only when it is supported. */
    method Configure(allow120Fps: bool, bitrateMin: int, bitrateMax: int, profile: Profile) returns (ok: bool)
      modifies this
      ensures limits == ConfiguredLimits(allow120Fps, bitrateMin, bitrateMax)
      ensures ok <==> Supported(limits, profile)
      ensures ok ==> Value() == Asked(old(Value()).(operatorDefault := profile, active := None), profile, "")
      ensures !ok ==> Value() == old(Value()).(operatorDefault := profile)
    {
      limits := ConfiguredLimits(allow120Fps, bitrateMin, bitrateMax);
      operatorDefault := profile;
      if !Supported(limits, operatorDefault) {
        return false;
      }
      requested, pending, active := Some(operatorDefault), Some(operatorDefault), None;
      requestedBySession := "";
      state, generation := Pending, generation + 1;
      return true;
    }

    method Request(session: string, profile: Profile, capabilities: Capabilities) returns (ok: bool)
      modifies this
      ensures limits == old(limits) && Value() == Requested(limits, old(Value()), session, profile, capabilities)
      ensures ok <==> Grants(limits, session, profile, capabilities)
    {
      ok := session != "" && capabilities.h264 && Within(profile, capabilities) && Supported(limits, profile);
      requested, requestedBySession := Some(profile), session;
      if ok {
        pending, state := Some(profile), Pending;
      } else {
        pending, state := None, Rejected;
      }
      generation := generation + 1;
    }

    method RequestOperatorDefault()
      modifies this
      ensures limits == old(limits) && Value() == Asked(old(Value()), operatorDefault, "")
    {
      requested, pending, requestedBySession := Some(operatorDefault), Some(operatorDefault), "";
      state, generation := Pending, generation + 1;
    }

    method TakePending() returns (result: Option<Profile>)
      modifies this`pending
      ensures Value() == old(Value()).(pending := None) && result == old(pending)
    {
      result := pending;
      pending := None;
    }

    method MarkApplied(profile: Profile)
      modifies this`active, this`state
      ensures Value() == Applied(old(Value()), profile)
    {
      if requested.None? || requested.value != profile {
        return;
      }
      active, state := Some(profile), Active;
    }

    method MarkRejected(profile: Profile)
      modifies this`state
      ensures Value() == Failed(old(Value()), profile)
    {
      if requested.None? || requested.value != profile {
        return;
      }
      state := Rejected;
    }

    method ClearSession(session: string)
      modifies this
      ensures limits == old(limits) && Value() == Cleared(old(Value()), session)
    {
      if requestedBySession != session {
        return;
      }
      RequestOperatorDefault();
    }
  }

  // ---------------------------------------------------------------------------------------------
  // The consumer
  // ---------------------------------------------------------------------------------------------

  /** The handshake and the profile the consumer has taken and not yet reported on. */
  datatype System = System(h: Handshake, awaiting: Option<Profile>)

  datatype Action =
    | Request(session: string, profile: Profile, capabilities: Capabilities)
    | OperatorDefault
    | ClearSession(session: string)
    | Take(bitratePending: bool)
    | EncoderOpened
    | EncoderFailed

  predicate SameSize(active: Option<Profile>, p: Profile) {
    active.Some? && active.value.width == p.width && active.value.height == p.height
  }

  /** The consumer takes what is pending; a change that needs no new encoder is reported at once. */
  function Taken(s: System, bitratePending: bool): System {
    match s.h.pending
    case None => s
    case Some(p) =>
      var h := s.h.(pending := None);
      if SameSize(h.active, p) && !bitratePending then System(Applied(h, p), None) else System(h, Some(p))
  }

  function Step(limits: Limits, s: System, a: Action): System {
    match a
    case Request(session, profile, capabilities) => s.(h := Requested(limits, s.h, session, profile, capabilities))
    case OperatorDefault => s.(h := Asked(s.h, s.h.operatorDefault, ""))
    case ClearSession(session) => s.(h := Cleared(s.h, session))
    case Take(bitratePending) => Taken(s, bitratePending)
    case EncoderOpened => if s.awaiting.Some? then System(Applied(s.h, s.awaiting.value), None) else s
    case EncoderFailed => if s.awaiting.Some? then System(Failed(s.h, s.awaiting.value), None) else s
  }

  /** The profile part of the capture loop. */
  class Consumer {
    const manager: Manager
    var profileAwaitingApply: Option<Profile>

    constructor (manager: Manager)
      ensures this.manager == manager && profileAwaitingApply == None
    {
      this.manager, profileAwaitingApply := manager, None;
    }

    ghost function Value(): System
      reads this, manager
    {
      System(manager.Value(), profileAwaitingApply)
    }

    method TakeProfile(bitratePending: bool)
      modifies this, manager`pending, manager`active, manager`state
      ensures Value() == Taken(old(Value()), bitratePending)
    {
      var requested := manager.TakePending();
      if requested.Some? {
        var resolutionChanged := !SameSize(manager.active, requested.value);
        profileAwaitingApply := requested;
        if !resolutionChanged && !bitratePending {
          manager.MarkApplied(requested.value);
          profileAwaitingApply := None;
        }
      }
    }

    /** The encoder was opened again, or could not be. */
    method EncoderDone(success: bool)
      modifies this, manager`active, manager`state
      ensures Value() == Step(manager.limits, old(Value()), if success then EncoderOpened else EncoderFailed)
    {
      if profileAwaitingApply.Some? {
        if success {
          manager.MarkApplied(profileAwaitingApply.value);
        } else {
          manager.MarkRejected(profileAwaitingApply.value);
        }
        profileAwaitingApply := None;
      }
    }
  }

  function Run(limits: Limits, s: System, actions: seq<Action>): System {
    if actions == [] then s else Step(limits, Run(limits, s, actions[..|actions| - 1]), actions[|actions| - 1])
  }

  /** Right after the configuration was accepted. */
  ghost predicate Start(limits: Limits, s: System) {
    && Supported(limits, s.h.operatorDefault)
    && s.h.requested == s.h.pending == Some(s.h.operatorDefault) && s.h.active == None
    && s.h.requestedBySession == "" && s.h.state == Pending && s.awaiting == None
  }

  ghost predicate OptionSupported(limits: Limits, p: Option<Profile>) {
    p.Some? ==> Supported(limits, p.value)
  }

  ghost predicate Inv(limits: Limits, s: System) {
    && Supported(limits, s.h.operatorDefault)
    && OptionSupported(limits, s.h.active) && OptionSupported(limits, s.h.pending)
    && OptionSupported(limits, s.awaiting)
    && s.h.requested.Some?
    && (s.h.pending.Some? ==> s.h.pending == s.h.requested)
    && (s.h.state == Active ==> s.h.active == s.h.requested)
  }

  lemma StepKeepsInv(limits: Limits, s: System, a: Action)
    requires Inv(limits, s)
    ensures Inv(limits, Step(limits, s, a))
  {
    match a
    case Request(session, profile, capabilities) =>
    case OperatorDefault =>
    case ClearSession(session) =>
    case Take(bitratePending) =>
    case EncoderOpened =>
    case EncoderFailed =>
  }

  /** In every run the active profile is supported, and Active means that it is the one requested. */
  lemma {:induction false} HandshakeIsSound(limits: Limits, s: System, actions: seq<Action>)
    requires Start(limits, s)
    ensures Inv(limits, Run(limits, s, actions))
  {
    if actions != [] {
      HandshakeIsSound(limits, s, actions[..|actions| - 1]);
      StepKeepsInv(limits, Run(limits, s, actions[..|actions| - 1]), actions[|actions| - 1]);
    }
  }

  predicate Asks(s: System, a: Action) {
    a.Request? || a.OperatorDefault? || (a.ClearSession? && s.h.requestedBySession == a.session)
  }

  /** A request, granted or not, raises the generation by one and leaves the active profile and the consumer alone;
      a report on a profile that is no longer requested changes nothing of the handshake. */
  lemma StepEffects(limits: Limits, s: System, a: Action)
    ensures var next := Step(limits, s, a);
            && next.h.generation == s.h.generation + (if Asks(s, a) then 1 else 0)
            && (Asks(s, a) ==> next.h.active == s.h.active && next.awaiting == s.awaiting)
            && ((a.EncoderOpened? || a.EncoderFailed?) && s.awaiting != s.h.requested ==> next.h == s.h)
            && (next.h.active != s.h.active ==> next.h.state == Active && next.h.active == s.h.requested)
  {
  }

  // ---------------------------------------------------------------------------------------------
  // Requests and takes
  // ---------------------------------------------------------------------------------------------

  /** A request that was granted, named by its generation. */
  datatype Ticket = Ticket(generation: nat, profile: Profile)

  function Granted(limits: Limits, s: System, actions: seq<Action>): seq<Ticket> {
    if actions == [] then [Ticket(s.h.generation, s.h.operatorDefault)]
    else
      var before, a := actions[..|actions| - 1], actions[|actions| - 1];
      var now, next := Run(limits, s, before), Run(limits, s, actions);
      var granted := Granted(limits, s, before);
      match a
      case Request(session, profile, capabilities) =>
        if Grants(limits, session, profile, capabilities) then granted + [Ticket(next.h.generation, profile)]
        else granted
      case OperatorDefault => granted + [Ticket(next.h.generation, next.h.operatorDefault)]
      case ClearSession(session) =>
        if now.h.requestedBySession == session then granted + [Ticket(next.h.generation, next.h.operatorDefault)]
        else granted
      case _ => granted
  }

  /** The profiles the consumer got, each with the generation at that time. */
  function Takes(limits: Limits, s: System, actions: seq<Action>): seq<Ticket> {
    if actions == [] then []
    else
      var before, a := actions[..|actions| - 1], actions[|actions| - 1];
      var now := Run(limits, s, before);
      if a.Take? && now.h.pending.Some? then
        Takes(limits, s, before) + [Ticket(now.h.generation, now.h.pending.value)]
      else Takes(limits, s, before)
  }

  ghost predicate Increasing(tickets: seq<Ticket>) {
    forall i, j :: 0 <= i < j < |tickets| ==> tickets[i].generation < tickets[j].generation
  }

  /** What is pending is the newest granted request, and it has not been taken. */
  ghost predicate PendingIsNewest(limits: Limits, s: System, actions: seq<Action>) {
    var h := Run(limits, s, actions).h;
    var takes := Takes(limits, s, actions);
    && (forall t :: t in takes ==> t.generation <= h.generation)
    && (h.pending.Some? ==>
          && Ticket(h.generation, h.pending.value) in Granted(limits, s, actions)
          && forall t :: t in takes ==> t.generation < h.generation)
  }

  /** Every granted request is taken at most once, with the profile it asked for, and in the order of the requests. */
  lemma {:induction false} TakenAtMostOnce(limits: Limits, s: System, actions: seq<Action>)
    requires Start(limits, s)
    ensures PendingIsNewest(limits, s, actions)
    ensures Increasing(Takes(limits, s, actions))
    ensures forall t :: t in Takes(limits, s, actions) ==> t in Granted(limits, s, actions)
  {
    if actions != [] {
      var before, a := actions[..|actions| - 1], actions[|actions| - 1];
      TakenAtMostOnce(limits, s, before);
      StepEffects(limits, Run(limits, s, before), a);
      assert forall t :: t in Granted(limits, s, before) ==> t in Granted(limits, s, actions);
    }
  }

  // ---------------------------------------------------------------------------------------------
  // Completion
  // ---------------------------------------------------------------------------------------------

  predicate OnlyConsumer(actions: seq<Action>) {
    forall k :: 0 <= k < |actions| ==> actions[k].Take? || actions[k].EncoderOpened? || actions[k].EncoderFailed?
  }

  predicate OnlyReports(actions: seq<Action>) {
    forall k :: 0 <= k < |actions| ==> actions[k].EncoderOpened? || actions[k].EncoderFailed?
  }

  predicate OnlyTakes(actions: seq<Action>) {
    forall k :: 0 <= k < |actions| ==> actions[k].Take?
  }

  lemma {:induction false} RunConcat(limits: Limits, s: System, a: seq<Action>, b: seq<Action>)
    ensures Run(limits, s, a + b) == Run(limits, Run(limits, s, a), b)
  {
    if b == [] {
      assert a + b == a;
    } else {
      RunConcat(limits, s, a, b[..|b| - 1]);
      assert (a + b)[..|a + b| - 1] == a + b[..|b| - 1];
    }
  }

  lemma RunOne(limits: Limits, s: System, a: Action)
    ensures Run(limits, s, [a]) == Step(limits, s, a)
  {
    assert [a][..0] == [];
  }

  /** Reports on what was taken before leave a pending request where it is. */
  lemma {:induction false} ReportsLeavePending(limits: Limits, s: System, actions: seq<Action>)
    requires OnlyReports(actions)
    ensures Run(limits, s, actions).h.pending == s.h.pending && Run(limits, s, actions).h.requested == s.h.requested
  {
    if actions != [] {
      ReportsLeavePending(limits, s, actions[..|actions| - 1]);
    }
  }

  /** Once the profile is active and nothing is under way, the consumer changes nothing. */
  predicate Settled(s: System, p: Profile) {
    && s.h.state == Active && s.h.active == Some(p) && s.h.requested == Some(p)
    && s.h.pending == None && s.awaiting == None
  }

  lemma {:induction false} SettledStays(limits: Limits, s: System, p: Profile, actions: seq<Action>)
    requires Settled(s, p) && OnlyConsumer(actions)
    ensures Run(limits, s, actions) == s
  {
    if actions != [] {
      SettledStays(limits, s, p, actions[..|actions| - 1]);
    }
  }

  /** The profile is taken: held by the consumer, or active already. */
  predicate TakenOrSettled(s: System, p: Profile) {
    Settled(s, p) || (s.h.requested == Some(p) && s.h.pending == None && s.awaiting == Some(p))
  }

  lemma {:induction false} TakesLeaveTaken(limits: Limits, s: System, p: Profile, actions: seq<Action>)
    requires TakenOrSettled(s, p) && OnlyTakes(actions)
    ensures TakenOrSettled(Run(limits, s, actions), p)
  {
    if actions != [] {
      TakesLeaveTaken(limits, s, p, actions[..|actions| - 1]);
    }
  }

  /** A granted request that no other request overtakes becomes active and stays so: whatever the consumer still reports
      before it takes the request, when the first report after the take is a success. */
  lemma GrantedBecomesActive(limits: Limits, s: System, session: string, p: Profile, c: Capabilities,
                             before: seq<Action>, bitratePending: bool, between: seq<Action>, rest: seq<Action>)
    requires Grants(limits, session, p, c)
    requires OnlyReports(before) && OnlyTakes(between) && OnlyConsumer(rest)
    ensures var taken := [Request(session, p, c)] + before + [Take(bitratePending)];
            var actions := taken + between + [EncoderOpened] + rest;
            Settled(Run(limits, s, actions), p)
  {
    var a1 := [Request(session, p, c)] + before;
    RunConcat(limits, s, [Request(session, p, c)], before);
    RunOne(limits, s, Request(session, p, c));
    ReportsLeavePending(limits, Step(limits, s, Request(session, p, c)), before);
    RunConcat(limits, s, a1, [Take(bitratePending)]);
    RunOne(limits, Run(limits, s, a1), Take(bitratePending));
    var a2 := a1 + [Take(bitratePending)];
    RunConcat(limits, s, a2, between);
    TakesLeaveTaken(limits, Run(limits, s, a2), p, between);
    RunConcat(limits, s, a2 + between, [EncoderOpened]);
    RunOne(limits, Run(limits, s, a2 + between), EncoderOpened);
    RunConcat(limits, s, a2 + between + [EncoderOpened], rest);
    SettledStays(limits, Run(limits, s, a2 + between + [EncoderOpened]), p, rest);
  }

  /** Without a further request the consumer cannot make a refused profile active, unless it holds the same profile
      from an earlier request. */
  lemma {:induction false} RefusedStaysInactive(limits: Limits, s: System, actions: seq<Action>)
    requires s.h.state == Rejected && s.h.pending == None && s.awaiting != s.h.requested
    requires OnlyConsumer(actions)
    ensures Run(limits, s, actions).h == s.h
    ensures Run(limits, s, actions).awaiting in {None, s.awaiting}
    ensures s.h.requested.Some? ==> Run(limits, s, actions).awaiting != s.h.requested
  {
    if actions != [] {
      RefusedStaysInactive(limits, s, actions[..|actions| - 1]);
    }
  }

  ghost predicate CanBecomeActive(limits: Limits, s: System) {
    exists actions :: OnlyConsumer(actions) && Run(limits, s, actions).h.state == Active
  }

  /** A refused request becomes active, with no other request in between, exactly when the consumer was already
      holding the same profile when it was refused. */
  lemma RefusedBecomesActiveIff(limits: Limits, s: System, session: string, p: Profile, c: Capabilities)
    requires !Grants(limits, session, p, c)
    ensures CanBecomeActive(limits, Step(limits, s, Request(session, p, c))) <==> s.awaiting == Some(p)
  {
    var refused := Step(limits, s, Request(session, p, c));
    if s.awaiting == Some(p) {
      var actions := [EncoderOpened];
      assert actions[..0] == [];
      assert OnlyConsumer(actions) && Run(limits, refused, actions).h.state == Active;
    } else {
      forall actions | OnlyConsumer(actions)
        ensures Run(limits, refused, actions).h.state != Active
      {
        RefusedStaysInactive(limits, refused, actions);
      }
    }
  }

  /** It happens, for every session: the consumer takes the operator's default, a client that cannot show it asks
      for the same profile and is refused, and the report of the encoder makes it active. */
  lemma RefusedBecomesActive(limits: Limits, s: System, session: string, c: Capabilities)
    requires Start(limits, s) && session != "" && !(c.h264 && Within(s.h.operatorDefault, c))
    ensures var p := s.h.operatorDefault;
            var refused := Run(limits, s, [Take(false), Request(session, p, c)]);
            && !Grants(limits, session, p, c) && refused.h.state == Rejected && refused.awaiting == Some(p)
            && Run(limits, s, [Take(false), Request(session, p, c), EncoderOpened]).h.state == Active
  {
    var request := Request(session, s.h.operatorDefault, c);
    var actions := [Take(false), request];
    RunOne(limits, s, Take(false));
    RunConcat(limits, s, [Take(false)], [request]);
    RunOne(limits, Step(limits, s, Take(false)), request);
    assert actions == [Take(false)] + [request];
    RunConcat(limits, s, actions, [EncoderOpened]);
    RunOne(limits, Run(limits, s, actions), EncoderOpened);
    assert [Take(false), request, EncoderOpened] == actions + [EncoderOpened];
  }
}
