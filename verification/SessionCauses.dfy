/**
 Why sessions begin and end: which command, deadline or lost window is behind each report of the host runtime, and that
 each of them has its effect.
 */
module SessionCauses {
  import opened SessionLifecycle

  // ---------------------------------------------------------------------------------------------
  // Commands
  // ---------------------------------------------------------------------------------------------

  /** The runtime without the command that is applied next. */
  function Without(r: Runtime): Runtime {
    r.(commands := if r.commands == [] then [] else r.commands[1..])
  }

  /** What a tick does when no command is left to apply. */
  function Undirected(r: Runtime, settings: Settings, o: Outside): Runtime {
    Next(r.(commands := []), settings, Tick(o)).(commands := r.commands)
  }

  lemma BodyKeepsCommands(r: Runtime, settings: Settings, o: Outside)
    ensures TickedBody(r, settings, o) == TickedBody(r.(commands := []), settings, o).(commands := r.commands)
  {
  }

  lemma TickIsCommandAndBody(r: Runtime, settings: Settings, o: Outside)
    requires r.state != Stopped
    ensures Next(r, settings, Tick(o)) == TickedBody(CommandApplied(r, o), settings, o)
    ensures Undirected(r, settings, o) == TickedBody(r, settings, o)
  {
    BodyKeepsCommands(r, settings, o);
  }

  /** A stop that names the open session ends it: it is reported as ended for the given reason and nothing else is
      reported, no session is open, and nothing is captured, as long as the operator has not selected a target. */
  lemma StopEndsItsSession(r: Runtime, settings: Settings, o: Outside, reason: string)
    requires r.state != Stopped && r.Active()
    requires r.commands != [] && r.commands[0] == SessionStop(r.session.id, reason)
    ensures var after := Next(r, settings, Tick(o));
            && after.log == r.log + [Terminated(Requested(reason))] + [SessionEnded(r.session.id, Requested(reason))]
            && !after.Active() && after.commands == r.commands[1..]
            && (!r.pendingTarget ==> !after.capture && after.state == Idle)
  {
  }

  /** A stop that names another session does nothing but leave the queue. */
  lemma OtherStopIsIgnored(r: Runtime, settings: Settings, o: Outside, sessionId: string, reason: string)
    requires r.state != Stopped && sessionId != r.session.id
    requires r.commands != [] && r.commands[0] == SessionStop(sessionId, reason)
    ensures Next(r, settings, Tick(o)) == Undirected(Without(r), settings, o)
  {
    TickIsCommandAndBody(r, settings, o);
    TickIsCommandAndBody(Without(r), settings, o);
  }

  /** When the control channel is ready the host names its session and reports it again at once. */
  lemma ControlReadyGreets(r: Runtime, settings: Settings, o: Outside)
    requires r.state != Stopped && r.commands != [] && r.commands[0] == ControlReady
    ensures var greeted := Without(r).(log := r.log + [Hello(r.session.id)]);
            Next(r, settings, Tick(o))
            == Undirected(if r.Active() then greeted.(session := r.session.(nextReport := 0)) else greeted, settings, o)
  {
    TickIsCommandAndBody(r, settings, o);
    TickIsCommandAndBody(CommandApplied(r, o), settings, o);
  }

  /** What the code asks of a launch. */
  predicate Launchable(sessionId: string, roomId: string, duration: int) {
    |sessionId| == 36 && |roomId| == 32 && 300 <= duration <= 28800
  }

  /** A valid prepare on a host without a session opens exactly the named session when its game is found and can be
      started: it is authorized and acknowledged, and has three minutes and then its duration. */
  lemma PrepareOpensSession(r: Runtime, settings: Settings, o: Outside, sessionId: string, roomId: string,
                            duration: int)
    requires r.state != Stopped && !r.Active()
    requires r.commands != [] && r.commands[0] == SessionPrepare(sessionId, roomId, duration)
    requires Launchable(sessionId, roomId, duration) && o.gameFound && o.launchWorks
    requires o.commandTime <= o.now < o.commandTime + 180_000_000_000
    ensures var after := Next(r, settings, Tick(o));
            && after.session.id == sessionId && after.session.duration == duration
            && after.session.nextReport == 0 && !after.session.connectedReported
            && after.session.launchDeadline == o.commandTime + 180_000_000_000
            && after.session.sessionDeadline == o.commandTime + 180_000_000_000 + duration * 1_000_000_000
            && after.log == r.log + [Authorized(sessionId)] + [LaunchAck(sessionId)]
            && after.commands == r.commands[1..]
  {
  }

  /** Any other prepare opens no session on such a host, and tells why. */
  lemma PrepareFails(r: Runtime, settings: Settings, o: Outside, sessionId: string, roomId: string, duration: int)
    requires r.state != Stopped && !r.Active() && sessionId != ""
    requires r.commands != [] && r.commands[0] == SessionPrepare(sessionId, roomId, duration)
    requires !(Launchable(sessionId, roomId, duration) && o.gameFound && o.launchWorks)
    ensures var after := Next(r, settings, Tick(o));
            && !after.Active()
            && after.log == r.log + [SessionFailed(sessionId,
                 if Launchable(sessionId, roomId, duration) && o.gameFound then LaunchFailed else InvalidLaunch)]
  {
  }

  // ---------------------------------------------------------------------------------------------
  // The end of a session
  // ---------------------------------------------------------------------------------------------

  /** A target is captured when the tick comes to it. */
  predicate Capturing(r: Runtime) {
    r.capture && !r.pendingTarget
  }

  predicate StopRequested(r: Runtime) {
    r.commands != [] && r.commands[0].SessionStop? && r.commands[0].sessionId == r.session.id
  }

  predicate DurationOver(r: Runtime, o: Outside) {
    o.now >= r.session.sessionDeadline
  }

  predicate LaunchOver(r: Runtime, o: Outside) {
    !Capturing(r) && o.now >= r.session.launchDeadline
  }

  /** The window has been gone for the grace period. */
  predicate WindowGone(r: Runtime, settings: Settings, o: Outside) {
    && Capturing(r) && !o.windowValid && settings.reattachEnabled
    && (if r.invalidSince == 0 then 0 else o.now - r.invalidSince) >= settings.reattachGraceMs * 1_000_000
  }

  /** The report that ends a session, by the first cause that holds. */
  function Ending(r: Runtime, settings: Settings, o: Outside): Event {
    var id := r.session.id;
    if StopRequested(r) then SessionEnded(id, Requested(r.commands[0].reason))
    else if DurationOver(r, o) then SessionEnded(id, DurationExpired)
    else if LaunchOver(r, o) then SessionFailed(id, LaunchTimeout)
    else SessionFailed(id, GameExited)
  }

  predicate HasCause(r: Runtime, settings: Settings, o: Outside) {
    StopRequested(r) || DurationOver(r, o) || LaunchOver(r, o) || WindowGone(r, settings, o)
  }

  lemma CommandLeavesSession(r: Runtime, o: Outside)
    requires r.Active() && !StopRequested(r)
    ensures var s := CommandApplied(r, o);
            && s == r.(commands := s.commands, session := r.session.(nextReport := s.session.nextReport), log := s.log)
            && r.log <= s.log
  {
  }

  /** A tick ends the open session exactly for a cause: a stop that names it, its duration, the launch window without a
      captured game, or a window gone for the grace period. The last report names the first cause that holds. */
  lemma SessionEndsIffCause(r: Runtime, settings: Settings, o: Outside)
    requires r.state != Stopped && r.Active()
    ensures var after := Next(r, settings, Tick(o));
            && (HasCause(r, settings, o) <==> !after.Active())
            && (after.Active() ==> after.session.id == r.session.id)
            && (!after.Active() ==> after.log != [] && after.log[|after.log| - 1] == Ending(r, settings, o))
  {
    if StopRequested(r) {
      StopEndsItsSession(r, settings, o, r.commands[0].reason);
    } else {
      CommandLeavesSession(r, o);
      BodyEndsIffCause(CommandApplied(r, o), settings, o);
    }
  }

  lemma BodyEndsIffCause(r: Runtime, settings: Settings, o: Outside)
    requires r.state != Stopped && r.Active()
    ensures var after := TickedBody(r, settings, o);
            var cause := DurationOver(r, o) || LaunchOver(r, o) || WindowGone(r, settings, o);
            && (cause <==> !after.Active())
            && (after.Active() ==> after.session.id == r.session.id)
            && (!after.Active() ==>
                  after.log != [] && after.log[|after.log| - 1] ==
                  if DurationOver(r, o) then SessionEnded(r.session.id, DurationExpired)
                  else if LaunchOver(r, o) then SessionFailed(r.session.id, LaunchTimeout)
                  else SessionFailed(r.session.id, GameExited))
  {
  }

  // ---------------------------------------------------------------------------------------------
  // Every run
  // ---------------------------------------------------------------------------------------------

  predicate PreparedBy(actions: seq<Action>, sessionId: string, roomId: string, duration: int) {
    Receive(SessionPrepare(sessionId, roomId, duration)) in actions && Launchable(sessionId, roomId, duration)
  }

  /** What came from outside before a report. */
  ghost predicate Behind(actions: seq<Action>, event: Event) {
    match event
    case SessionEnded(sessionId, Requested(text)) => Receive(SessionStop(sessionId, text)) in actions
    case SessionFailed(_, HostStopped) => Stop in actions
    case Authorized(sessionId) => exists roomId, duration :: PreparedBy(actions, sessionId, roomId, duration)
    case Hello(_) => Receive(ControlReady) in actions
    case _ => true
  }

  /** Every command queued was received, and every report has its cause. */
  ghost predicate Explained(actions: seq<Action>, r: Runtime) {
    && (forall command :: command in r.commands ==> Receive(command) in actions)
    && forall event :: event in r.log ==> Behind(actions, event)
  }

  lemma BehindStays(actions: seq<Action>, more: Action, event: Event)
    requires Behind(actions, event)
    ensures Behind(actions + [more], event)
  {
    if event.Authorized? {
      var roomId, duration :| PreparedBy(actions, event.sessionId, roomId, duration);
      assert PreparedBy(actions + [more], event.sessionId, roomId, duration);
    }
  }

  lemma ExplainedStays(actions: seq<Action>, more: Action, r: Runtime)
    requires Explained(actions, r)
    ensures Explained(actions + [more], r)
  {
    forall event | event in r.log
      ensures Behind(actions + [more], event)
    {
      BehindStays(actions, more, event);
    }
  }

  lemma CommandIsExplained(actions: seq<Action>, r: Runtime, o: Outside)
    requires Explained(actions, r)
    ensures Explained(actions, CommandApplied(r, o))
  {
    if r.commands != [] {
      var command := r.commands[0];
      assert command in r.commands && Receive(command) in actions;
      if command.SessionPrepare? && Launchable(command.sessionId, command.roomId, command.durationSeconds) {
        assert PreparedBy(actions, command.sessionId, command.roomId, command.durationSeconds);
      }
    }
  }

  lemma BodyIsExplained(actions: seq<Action>, r: Runtime, settings: Settings, o: Outside)
    requires Explained(actions, r)
    ensures Explained(actions, TickedBody(r, settings, o))
  {
    BodyReports(r, settings, o);
    var after := TickedBody(r, settings, o);
    forall event | event in after.log
      ensures Behind(actions, event)
    {
      if event in r.log {
        assert Behind(actions, event);
      }
    }
  }

  /** The tick behind the command reports nothing that needs a cause from outside. */
  lemma BodyReports(r: Runtime, settings: Settings, o: Outside)
    ensures var after := TickedBody(r, settings, o);
            && after.commands == r.commands
            && forall event :: event in after.log ==>
              || event in r.log || event.Terminated? || event.StreamConnected? || event.GameReady?
              || (event.SessionEnded? && event.reason == DurationExpired)
              || (event.SessionFailed? && (event.code.LaunchTimeout? || event.code.GameExited?))
  {
  }

  lemma {:induction false} RunIsExplained(now: int, settings: Settings, actions: seq<Action>)
    ensures Explained(actions, After(Started(now), settings, actions))
  {
    if actions != [] {
      var before, last := actions[..|actions| - 1], actions[|actions| - 1];
      var r := After(Started(now), settings, before);
      RunIsExplained(now, settings, before);
      ExplainedStays(before, last, r);
      assert actions == before + [last];
      if last.Tick? && r.state != Stopped {
        CommandIsExplained(actions, r, last.outside);
        BodyIsExplained(actions, CommandApplied(r, last.outside), settings, last.outside);
      }
    }
  }

  /** Over every run: behind a session that ended on request is a received stop with its id and reason, behind one that
      was opened a received prepare with its id and valid values, and behind one that failed with the host a stop. */
  lemma ReportsHaveCauses(now: int, settings: Settings, actions: seq<Action>, event: Event)
    requires event in After(Started(now), settings, actions).log
    ensures event.SessionEnded? && event.reason.Requested? ==>
              Receive(SessionStop(event.sessionId, event.reason.text)) in actions
    ensures event.Authorized? ==>
              exists roomId, duration :: PreparedBy(actions, event.sessionId, roomId, duration)
    ensures event.SessionFailed? && event.code.HostStopped? ==> Stop in actions
  {
    RunIsExplained(now, settings, actions);
    assert Behind(actions, event);
  }

  // ---------------------------------------------------------------------------------------------
  // The peer
  // ---------------------------------------------------------------------------------------------

  /** A session that counts as connected was reported as connected. */
  predicate ConnectionInLog(r: Runtime) {
    && (r.session.connectedReported ==> StreamConnected(r.session.id) in r.log)
    && (!r.Active() ==> r.session == NO_SESSION)
  }

  lemma CommandKeepsConnection(r: Runtime, o: Outside)
    requires ConnectionInLog(r)
    ensures ConnectionInLog(CommandApplied(r, o))
  {
    assert r.session.connectedReported ==> StreamConnected(r.session.id) in CommandApplied(r, o).log;
  }

  lemma BodyKeepsConnection(r: Runtime, settings: Settings, o: Outside)
    requires ConnectionInLog(r)
    ensures ConnectionInLog(TickedBody(r, settings, o))
  {
  }

  lemma {:induction false} ConnectionIsReported(now: int, settings: Settings, actions: seq<Action>)
    ensures ConnectionInLog(After(Started(now), settings, actions))
  {
    if actions != [] {
      var r := After(Started(now), settings, actions[..|actions| - 1]);
      var last := actions[|actions| - 1];
      ConnectionIsReported(now, settings, actions[..|actions| - 1]);
      if last.Tick? && r.state != Stopped {
        CommandKeepsConnection(r, last.outside);
        BodyKeepsConnection(CommandApplied(r, last.outside), settings, last.outside);
      }
    }
  }

  /** A tick with a captured window and without a command: a report is made when one is due, as connected exactly if the
      peer is; a connection whose report was sent is never reported again and starts the session's duration; any other
      report is repeated, after a second, or a quarter when it could not be sent. A changed peer shows in the state. */
  lemma CapturedTickFollowsPeer(r: Runtime, settings: Settings, o: Outside)
    requires r.state != Stopped && r.Active() && Capturing(r) && r.commands == [] && o.windowValid
    requires !DurationOver(r, o)
    ensures var after := Next(r, settings, Tick(o));
            var connected := o.peerState == 2 || o.peerState == 3;
            var due := !r.session.connectedReported && o.now >= r.session.nextReport;
            && after.log == r.log + (if !due then [] else if connected then [StreamConnected(r.session.id)]
                                     else [GameReady(r.session.id)])
            && after.session.connectedReported == (r.session.connectedReported || (due && connected && o.sent))
            && after.session.sessionDeadline
               == (if due && connected && o.sent then o.now + r.session.duration * 1_000_000_000
                   else r.session.sessionDeadline)
            && after.session.nextReport
               == (if !due then r.session.nextReport else o.now + if o.sent then 1_000_000_000 else 250_000_000)
            && (o.peerState != r.lastPeerState && connected ==> after.state == Streaming)
            && (o.peerState != r.lastPeerState && o.peerState == 1 ==> after.state == Reconnecting)
            && (o.peerState != r.lastPeerState && 4 <= o.peerState <= 6 ==> after.state == Ready)
            && (o.peerState == r.lastPeerState || !(1 <= o.peerState <= 6) ==> after.state == r.state)
  {
  }

  // ---------------------------------------------------------------------------------------------
  // The target
  // ---------------------------------------------------------------------------------------------

  /** A tick looks for the target: with a session, or when the operator's target is awaited, and not more often than
      the poll interval. */
  predicate Polls(r: Runtime, o: Outside) {
    && (r.Active() || r.pendingTarget || r.state == WaitingForTarget)
    && o.now >= if r.pendingTarget then o.selectionTime else r.nextPoll
  }

  /** Without a captured target and a cause to end the session, a tick starts capture exactly when it polls and the
      target is found and can be captured; the state tells how that went, and the next poll is due after 250 ms with
      a session and after the configured interval otherwise. */
  lemma CaptureStartsIffFound(r: Runtime, settings: Settings, o: Outside)
    requires r.state != Stopped && r.commands == [] && !Capturing(r)
    requires r.Active() ==> !DurationOver(r, o) && !LaunchOver(r, o)
    ensures var after := Next(r, settings, Tick(o));
            && (after.capture <==> Polls(r, o) && o.targetFound && o.attach == Attached)
            && (after.capture ==> after.state == Ready && after.invalidSince == 0)
            && (Polls(r, o) && o.targetFound && o.attach == DeviceFailed ==> after.state == Failed)
            && (Polls(r, o) ==>
                  after.nextPoll == o.now + 1_000_000 * if r.Active() then 250 else settings.pollIntervalMs)
            && (r.pendingTarget && !Polls(r, o) ==> after.state == WaitingForTarget)
            && after.session == (if after.capture && r.Active() then r.session.(nextReport := 0) else r.session)
            && !after.pendingTarget && after.log == r.log
  {
  }

  /** The time since which the window is gone is kept until it is back; without a session the target is awaited again
      after the grace period. */
  lemma LostWindowIsTimed(r: Runtime, settings: Settings, o: Outside)
    requires r.state != Stopped && r.commands == [] && Capturing(r)
    requires r.Active() ==> !DurationOver(r, o) && !WindowGone(r, settings, o)
    ensures var after := Next(r, settings, Tick(o));
            && (o.windowValid ==> after.capture && after.invalidSince == 0)
            && (!o.windowValid ==>
                  && after.invalidSince == (if r.invalidSince == 0 then o.now else r.invalidSince)
                  && after.capture == !WindowGone(r, settings, o) && after.log == r.log
                  && after.state == (if WindowGone(r, settings, o) then WaitingForTarget else r.state)
                  && (WindowGone(r, settings, o) ==> after.nextPoll == o.now))
  {
  }
}
