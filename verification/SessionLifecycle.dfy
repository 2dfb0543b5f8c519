/**
 The unattended session lifecycle of the host runtime: marketplace commands, the timed tick, cleanup
 and stop, with a log of what the runtime tried to report. Times are steady-clock nanoseconds, 0 is the
 unset time point. Exceptions of the services below are not modelled.
 */
module SessionLifecycle {

  const MAX_PENDING_COMMANDS := 64

  function Milliseconds(n: int): int { n * 1_000_000 }

  function Seconds(n: int): int { n * 1_000_000_000 }

  /** How long a prepared session may take to attach its game. */
  function LaunchWindow(): int { Seconds(180) }

  datatype HostState =
    | Stopped | Initializing | Idle | Preparing | WaitingForTarget | Ready | Streaming | Reconnecting | Failed

  datatype Command =
    | ControlReady
    | SessionStop(sessionId: string, reason: string)
    | SessionPrepare(sessionId: string, roomId: string, durationSeconds: int)

  datatype Failure = HostBusy | InvalidLaunch | LaunchFailed | LaunchTimeout | GameExited | HostStopped

  datatype Reason = Requested(text: string) | DurationExpired | Because(failure: Failure)

  /** What the runtime reports to the marketplace, and the calls on the session authority. */
  datatype Event =
    | Hello(sessionId: string)
    | LaunchAck(sessionId: string)
    | SessionFailed(sessionId: string, code: Failure)
    | SessionEnded(sessionId: string, reason: Reason)
    | StreamConnected(sessionId: string)
    | GameReady(sessionId: string)
    | Authorized(sessionId: string)
    | Terminated(reason: Reason)

  datatype Settings = Settings(reattachEnabled: bool, reattachGraceMs: nat, pollIntervalMs: nat)

  datatype Attach = DeviceFailed | CaptureFailed | Attached

  /** What the outside answers during one tick. */
  datatype Outside = Outside(
    commandTime: int,
    selectionTime: int,
    now: int,
    gameFound: bool,
    launchWorks: bool,
    targetFound: bool,
    attach: Attach,
    windowValid: bool,
    peerState: int,
    sent: bool)

  /** The session part of the runtime. `activatedAt` is when the session was prepared; the code does not keep it. */
  datatype Session = Session(
    id: string,
    duration: int,
    launchDeadline: int,
    sessionDeadline: int,
    nextReport: int,
    connectedReported: bool,
    activatedAt: int)

  datatype Runtime = Runtime(
    state: HostState,
    session: Session,
    capture: bool,
    nextPoll: int,
    invalidSince: int,
    lastPeerState: int,
    pendingTarget: bool,
    commands: seq<Command>,
    log: seq<Event>)
  {
    predicate Active() { session.id != "" }
  }

  const NO_SESSION := Session("", 0, 0, 0, 0, false, 0)

  function Started(now: int): Runtime {
    Runtime(Idle, NO_SESSION, false, now, 0, -1, false, [], [])
  }

  // ---------------------------------------------------------------------------------------------
  // The specification of each operation
  // ---------------------------------------------------------------------------------------------

  function Log(r: Runtime, event: Event): Runtime {
    r.(log := r.log + [event])
  }

  /** Ends the active session, if there is one, with one terminal report. */
  function CleanedUp(r: Runtime, terminal: Event, reason: Reason): Runtime {
    if !r.Active() then r
    else r.(state := Idle, session := NO_SESSION, capture := false, log := r.log + [Terminated(reason)] + [terminal])
  }

  function CleanedUpFailed(r: Runtime, failure: Failure): Runtime {
    CleanedUp(r, SessionFailed(r.session.id, failure), Because(failure))
  }

  function CleanedUpEnded(r: Runtime, reason: Reason): Runtime {
    CleanedUp(r, SessionEnded(r.session.id, reason), reason)
  }

  predicate ValidLaunch(sessionId: string, roomId: string, duration: int, gameFound: bool) {
    gameFound && |sessionId| == 36 && |roomId| == 32 && 300 <= duration <= 28800
  }

  function NewSession(sessionId: string, duration: int, now: int): Session {
    Session(sessionId, duration, now + LaunchWindow(), now + LaunchWindow() + Seconds(duration), 0, false, now)
  }

  function Prepared(r: Runtime, sessionId: string, roomId: string, duration: int, o: Outside): Runtime {
    if r.session.id == sessionId then Log(r, LaunchAck(sessionId))
    else if r.Active() then Log(r, SessionFailed(sessionId, HostBusy))
    else if !ValidLaunch(sessionId, roomId, duration, o.gameFound) then Log(r, SessionFailed(sessionId, InvalidLaunch))
    else if !o.launchWorks then Log(r.(capture := false), SessionFailed(sessionId, LaunchFailed))
    else r.(
      state := Preparing, capture := false, session := NewSession(sessionId, duration, o.commandTime),
      log := r.log + [Authorized(sessionId)] + [LaunchAck(sessionId)])
  }

  function CommandApplied(r: Runtime, o: Outside): Runtime {
    if r.commands == [] then r
    else
      var rest := r.(commands := r.commands[1..]);
      match r.commands[0]
      case ControlReady =>
        var reset := if rest.Active() then rest.(session := rest.session.(nextReport := 0)) else rest;
        Log(reset, Hello(rest.session.id))
      case SessionStop(sessionId, reason) =>
        if sessionId == rest.session.id then CleanedUpEnded(rest, Requested(reason)) else rest
      case SessionPrepare(sessionId, roomId, duration) => Prepared(rest, sessionId, roomId, duration, o)
  }

  function SelectionApplied(r: Runtime, o: Outside): Runtime {
    if !r.pendingTarget then r
    else r.(capture := false, pendingTarget := false, nextPoll := o.selectionTime, state := WaitingForTarget)
  }

  function AttachTried(r: Runtime, attach: Attach): Runtime {
    match attach
    case DeviceFailed => r.(state := Failed)
    case CaptureFailed => r
    case Attached => r.(capture := true, invalidSince := 0, state := Ready)
  }

  /** The tick while nothing is captured. */
  function Searched(r: Runtime, settings: Settings, o: Outside): Runtime {
    if r.Active() then
      if o.now >= r.session.launchDeadline then CleanedUpFailed(r, LaunchTimeout)
      else if o.now >= r.nextPoll then
        var tried := if o.targetFound then AttachTried(r, o.attach) else r;
        var reset := if o.targetFound && o.attach.Attached? then r.session.(nextReport := 0) else r.session;
        tried.(session := reset, nextPoll := o.now + Milliseconds(250))
      else r
    else if r.state == WaitingForTarget && o.now >= r.nextPoll then
      var tried := if o.targetFound then AttachTried(r, o.attach) else r;
      tried.(nextPoll := o.now + Milliseconds(settings.pollIntervalMs))
    else r
  }

  /** The tick while the captured window is gone. */
  function WindowLost(r: Runtime, settings: Settings, o: Outside): Runtime {
    var noticed := r.(invalidSince := if r.invalidSince == 0 then o.now else r.invalidSince);
    if settings.reattachEnabled && o.now - noticed.invalidSince >= Milliseconds(settings.reattachGraceMs) then
      if r.Active() then CleanedUpFailed(noticed, GameExited)
      else noticed.(capture := false, state := WaitingForTarget, nextPoll := o.now)
    else noticed
  }

  predicate PeerConnected(peerState: int) {
    peerState == 2 || peerState == 3
  }

  predicate ReportsDue(session: Session, now: int) {
    session.id != "" && !session.connectedReported && now >= session.nextReport
  }

  /** Reports the session until a connected peer was reported; that report extends the deadline, once. */
  function SessionReported(session: Session, o: Outside): Session {
    if !ReportsDue(session, o.now) then session
    else
      var next := session.(nextReport := o.now + (if o.sent then Seconds(1) else Milliseconds(250)));
      if PeerConnected(o.peerState) && o.sent then
        next.(connectedReported := true, sessionDeadline := o.now + Seconds(session.duration))
      else next
  }

  function Reported(r: Runtime, o: Outside): Runtime {
    if !ReportsDue(r.session, o.now) then r
    else
      var report := if PeerConnected(o.peerState) then StreamConnected(r.session.id) else GameReady(r.session.id);
      r.(session := SessionReported(r.session, o), log := r.log + [report])
  }

  function StateAfterPeer(state: HostState, peerState: int): HostState {
    if PeerConnected(peerState) then Streaming
    else if peerState == 1 then Reconnecting
    else if peerState == 4 || peerState == 5 || peerState == 6 then Ready
    else state
  }

  function PeerFollowed(r: Runtime, o: Outside): Runtime {
    if o.peerState == r.lastPeerState then r
    else r.(lastPeerState := o.peerState, state := StateAfterPeer(r.state, o.peerState))
  }

  /** The tick behind the command. */
  function TickedBody(r: Runtime, settings: Settings, o: Outside): Runtime {
    var s := SelectionApplied(r, o);
    if s.Active() && o.now >= s.session.sessionDeadline then CleanedUpEnded(s, DurationExpired)
    else if !s.capture then Searched(s, settings, o)
    else if !o.windowValid then WindowLost(s, settings, o)
    else PeerFollowed(Reported(s.(invalidSince := 0), o), o)
  }

  function Ticked(r: Runtime, settings: Settings, o: Outside): Runtime {
    TickedBody(CommandApplied(r, o), settings, o)
  }

  function Halted(r: Runtime): Runtime {
    if r.state == Stopped then r
    else
      CleanedUpFailed(r, HostStopped).(
        capture := false, pendingTarget := false, commands := [], lastPeerState := -1, state := Stopped)
  }

  // ---------------------------------------------------------------------------------------------
  // The code
  // ---------------------------------------------------------------------------------------------

  class HostRuntime {
    const settings: Settings
    var state: HostState
    var activeSessionId: string
    var captureStarted: bool
    var sessionDurationSeconds: int
    var launchDeadline: int
    var sessionDeadline: int
    var nextSessionReport: int
    var nextTargetPoll: int
    var invalidWindowSince: int
    var sessionConnectedReported: bool
    var lastPeerState: int
    var pendingTarget: bool
    var pendingMarketplaceCommands: seq<Command>
    var log: seq<Event>
    ghost var activatedAt: int

    constructor (settings: Settings, now: int)
      ensures this.settings == settings && Value() == Started(now)
    {
      this.settings := settings;
      state, activeSessionId, captureStarted := Idle, "", false;
      sessionDurationSeconds, launchDeadline, sessionDeadline := 0, 0, 0;
      nextSessionReport, nextTargetPoll, invalidWindowSince := 0, now, 0;
      sessionConnectedReported, lastPeerState, pendingTarget := false, -1, false;
      pendingMarketplaceCommands, log, activatedAt := [], [], 0;
    }

    ghost function SessionValue(): Session
      reads this
    {
      Session(activeSessionId, sessionDurationSeconds, launchDeadline, sessionDeadline, nextSessionReport,
              sessionConnectedReported, activatedAt)
    }

    ghost function Value(): Runtime
      reads this
    {
      Runtime(state, SessionValue(), captureStarted, nextTargetPoll, invalidWindowSince, lastPeerState, pendingTarget,
              pendingMarketplaceCommands, log)
    }

    method HandleMarketplaceCommand(command: Command)
      modifies this`pendingMarketplaceCommands
      ensures pendingMarketplaceCommands ==
              if |old(pendingMarketplaceCommands)| < MAX_PENDING_COMMANDS then
                old(pendingMarketplaceCommands) + [command]
              else old(pendingMarketplaceCommands)
    {
      if |pendingMarketplaceCommands| < MAX_PENDING_COMMANDS {
        pendingMarketplaceCommands := pendingMarketplaceCommands + [command];
      }
    }

    /** `plainName` tells whether the name is a file name without a directory. An invalid selection is refused. */
    method QueueTargetSelection(processName: string, preferredTitle: string, plainName: bool) returns (ok: bool)
      modifies this`pendingTarget
      ensures ok <==> 0 < |processName| <= 260 && |preferredTitle| <= 512 && plainName
      ensures pendingTarget == (ok || old(pendingTarget))
    {
      if processName == "" || |processName| > 260 || |preferredTitle| > 512 || !plainName {
        return false;
      }
      pendingTarget := true;
      return true;
    }

    method DetachTarget()
      modifies this`captureStarted
      ensures !captureStarted
    {
      if captureStarted {
        captureStarted := false;
      }
    }

    method CleanupSession(terminalEvent: Event, reason: Reason)
      modifies this
      ensures Value() == CleanedUp(old(Value()), terminalEvent, reason)
    {
      if activeSessionId == "" {
        return;
      }
      DetachTarget();
      log := log + [Terminated(reason)];
      log := log + [terminalEvent];
      ForgetSession();
      state := Idle;
    }

    method ForgetSession()
      modifies this`activeSessionId, this`sessionDurationSeconds, this`nextSessionReport, this`sessionConnectedReported
      modifies this`launchDeadline, this`sessionDeadline, this`activatedAt
      ensures SessionValue() == NO_SESSION
    {
      activeSessionId := "";
      sessionDurationSeconds := 0;
      nextSessionReport := 0;
      sessionConnectedReported := false;
      launchDeadline, sessionDeadline, activatedAt := 0, 0, 0;
    }

    method ApplyMarketplaceCommand(o: Outside)
      modifies this
      ensures Value() == CommandApplied(old(Value()), o)
    {
      if pendingMarketplaceCommands == [] {
        return;
      }
      var command := pendingMarketplaceCommands[0];
      pendingMarketplaceCommands := pendingMarketplaceCommands[1..];
      match command
      case ControlReady =>
        log := log + [Hello(activeSessionId)];
        if activeSessionId != "" {
          nextSessionReport := 0;
        }
      case SessionStop(sessionId, reason) =>
        if sessionId == activeSessionId {
          CleanupSession(SessionEnded(activeSessionId, Requested(reason)), Requested(reason));
        }
      case SessionPrepare(sessionId, roomId, duration) =>
        PrepareSession(sessionId, roomId, duration, o);
    }

    method PrepareSession(sessionId: string, roomId: string, duration: int, o: Outside)
      modifies this
      ensures Value() == Prepared(old(Value()), sessionId, roomId, duration, o)
    {
      if activeSessionId == sessionId {
        log := log + [LaunchAck(sessionId)];
        return;
      }
      if activeSessionId != "" {
        log := log + [SessionFailed(sessionId, HostBusy)];
        return;
      }
      if !o.gameFound || |sessionId| != 36 || |roomId| != 32 || duration < 300 || duration > 28800 {
        log := log + [SessionFailed(sessionId, InvalidLaunch)];
        return;
      }
      DetachTarget();
      if !o.launchWorks {
        log := log + [SessionFailed(sessionId, LaunchFailed)];
        return;
      }
      log := log + [Authorized(sessionId)];
      BeginSession(sessionId, duration, o.commandTime);
      log := log + [LaunchAck(sessionId)];
      state := Preparing;
    }

    method BeginSession(sessionId: string, duration: int, now: int)
      modifies this`activeSessionId, this`sessionDurationSeconds, this`nextSessionReport, this`sessionConnectedReported
      modifies this`launchDeadline, this`sessionDeadline, this`activatedAt
      ensures SessionValue() == NewSession(sessionId, duration, now)
    {
      activeSessionId := sessionId;
      sessionDurationSeconds := duration;
      launchDeadline := now + LaunchWindow();
      sessionDeadline := launchDeadline + Seconds(duration);
      nextSessionReport := 0;
      sessionConnectedReported := false;
      activatedAt := now;
    }

    method ApplyPendingTargetSelection(o: Outside)
      modifies this`pendingTarget, this`captureStarted, this`nextTargetPoll, this`state
      ensures Value() == SelectionApplied(old(Value()), o)
    {
      if !pendingTarget {
        return;
      }
      pendingTarget := false;
      DetachTarget();
      nextTargetPoll := o.selectionTime;
      state := WaitingForTarget;
    }

    method AttachTarget(attach: Attach) returns (attached: bool)
      modifies this`captureStarted, this`invalidWindowSince, this`state
      ensures Value() == AttachTried(old(Value()), attach) && attached == attach.Attached?
    {
      match attach
      case DeviceFailed =>
        state := Failed;
        return false;
      case CaptureFailed =>
        return false;
      case Attached =>
        captureStarted := true;
        invalidWindowSince := 0;
        state := Ready;
        return true;
    }

    method Tick(o: Outside)
      modifies this
      ensures Value() == Ticked(old(Value()), settings, o)
    {
      ApplyMarketplaceCommand(o);
      ApplyPendingTargetSelection(o);
      if activeSessionId != "" && o.now >= sessionDeadline {
        CleanupSession(SessionEnded(activeSessionId, DurationExpired), DurationExpired);
        return;
      }
      if !captureStarted {
        FindTarget(o);
        return;
      }
      if !o.windowValid {
        LoseWindow(o);
        return;
      }
      invalidWindowSince := 0;
      ReportSession(o);
      FollowPeer(o);
    }

    method LoseWindow(o: Outside)
      modifies this
      ensures Value() == WindowLost(old(Value()), settings, o)
    {
      if invalidWindowSince == 0 {
        invalidWindowSince := o.now;
      }
      if settings.reattachEnabled && o.now - invalidWindowSince >= Milliseconds(settings.reattachGraceMs) {
        if activeSessionId != "" {
          CleanupSession(SessionFailed(activeSessionId, GameExited), Because(GameExited));
        } else {
          DetachTarget();
          state := WaitingForTarget;
          nextTargetPoll := o.now;
        }
      }
    }

    method FindTarget(o: Outside)
      modifies this
      ensures Value() == Searched(old(Value()), settings, o)
    {
      if activeSessionId != "" {
        if o.now >= launchDeadline {
          CleanupSession(SessionFailed(activeSessionId, LaunchTimeout), Because(LaunchTimeout));
          return;
        }
        if o.now >= nextTargetPoll {
          if o.targetFound {
            var attached := AttachTarget(o.attach);
            if attached {
              nextSessionReport := 0;
            }
          }
          nextTargetPoll := o.now + Milliseconds(250);
        }
      } else if state == WaitingForTarget && o.now >= nextTargetPoll {
        if o.targetFound {
          var _ := AttachTarget(o.attach);
        }
        nextTargetPoll := o.now + Milliseconds(settings.pollIntervalMs);
      }
    }

    method ReportSession(o: Outside)
      modifies this`log, this`nextSessionReport, this`sessionConnectedReported, this`sessionDeadline
      ensures Value() == Reported(old(Value()), o)
    {
      if activeSessionId != "" && !sessionConnectedReported && o.now >= nextSessionReport {
        var peerConnected := o.peerState == 2 || o.peerState == 3;
        log := log + [if peerConnected then StreamConnected(activeSessionId) else GameReady(activeSessionId)];
        nextSessionReport := o.now + (if o.sent then Seconds(1) else Milliseconds(250));
        if peerConnected && o.sent {
          sessionConnectedReported := true;
          sessionDeadline := o.now + Seconds(sessionDurationSeconds);
        }
      }
    }

    method FollowPeer(o: Outside)
      modifies this`lastPeerState, this`state
      ensures Value() == PeerFollowed(old(Value()), o)
    {
      if o.peerState != lastPeerState {
        lastPeerState := o.peerState;
        if o.peerState == 2 || o.peerState == 3 {
          state := Streaming;
        } else if o.peerState == 1 {
          state := Reconnecting;
        } else if o.peerState == 4 || o.peerState == 5 || o.peerState == 6 {
          state := Ready;
        }
      }
    }

    method Stop()
      modifies this
      ensures Value() == Halted(old(Value()))
    {
      if state == Stopped {
        return;
      }
      CleanupSession(SessionFailed(activeSessionId, HostStopped), Because(HostStopped));
      captureStarted := false;
      pendingTarget := false;
      pendingMarketplaceCommands := [];
      lastPeerState := -1;
      state := Stopped;
    }
  }

  // ---------------------------------------------------------------------------------------------
  // Runs
  // ---------------------------------------------------------------------------------------------

  datatype Action =
    | Receive(command: Command)
    | SelectTarget
    | Tick(outside: Outside)
    | Stop

  function Next(r: Runtime, settings: Settings, action: Action): Runtime {
    match action
    case Receive(command) =>
      if |r.commands| < MAX_PENDING_COMMANDS then r.(commands := r.commands + [command]) else r
    case SelectTarget => r.(pendingTarget := true)
    // The run loop ends with the stop.
    case Tick(outside) => if r.state == Stopped then r else Ticked(r, settings, outside)
    case Stop => Halted(r)
  }

  function After(r: Runtime, settings: Settings, actions: seq<Action>): Runtime {
    if actions == [] then r
    else Next(After(r, settings, actions[..|actions| - 1]), settings, actions[|actions| - 1])
  }

  // ---------------------------------------------------------------------------------------------
  // Exactly one terminal report per activation
  // ---------------------------------------------------------------------------------------------

  /** What the log says about sessions: none open, one open, or something was reported twice or out of turn. */
  datatype Story = NoSession | OneSession(sessionId: string) | Inconsistent

  /** Reports that end a session, as opposed to answers to a command that was refused. */
  predicate IsTerminal(event: Event) {
    || event.SessionEnded?
    || (event.SessionFailed? && (event.code.LaunchTimeout? || event.code.GameExited? || event.code.HostStopped?))
  }

  function Told(story: Story, event: Event): Story {
    if story.Inconsistent? then story
    else if event.Authorized? then
      if story.NoSession? then OneSession(event.sessionId) else Inconsistent
    else if IsTerminal(event) then
      if story == OneSession(event.sessionId) then NoSession else Inconsistent
    else story
  }

  function StoryOf(log: seq<Event>): Story {
    if log == [] then NoSession else Told(StoryOf(log[..|log| - 1]), log[|log| - 1])
  }

  /** An answer that fits what the log says so far: the host is busy only with another session, and only the open
      session is acknowledged. The empty id is the id of no session. */
  predicate Fits(story: Story, event: Event) {
    && (event.SessionFailed? && event.code.HostBusy? ==> story.OneSession? && story.sessionId != event.sessionId)
    && (event.LaunchAck? && event.sessionId != "" ==> story == OneSession(event.sessionId))
  }

  predicate AllFit(log: seq<Event>) {
    log == [] || (AllFit(log[..|log| - 1]) && Fits(StoryOf(log[..|log| - 1]), log[|log| - 1]))
  }

  lemma {:induction false} EachFits(log: seq<Event>, i: nat)
    requires AllFit(log) && i < |log|
    ensures Fits(StoryOf(log[..i]), log[i])
  {
    if i < |log| - 1 {
      EachFits(log[..|log| - 1], i);
      assert log[..|log| - 1][..i] == log[..i];
    }
  }

  lemma StoryGrows(log: seq<Event>, event: Event)
    ensures StoryOf(log + [event]) == Told(StoryOf(log), event)
    ensures AllFit(log + [event]) <==> AllFit(log) && Fits(StoryOf(log), event)
  {
    assert (log + [event])[..|log|] == log;
  }

  // ---------------------------------------------------------------------------------------------
  // The invariant
  // ---------------------------------------------------------------------------------------------

  ghost predicate Tidy(r: Runtime) {
    && StoryOf(r.log) == (if !r.Active() then NoSession else OneSession(r.session.id)) && AllFit(r.log)
    && (r.state in {Idle, Stopped} ==> !r.Active() && !r.capture)
    && (r.Active() ==>
      && 300 <= r.session.duration <= 28800
      && r.session.launchDeadline == r.session.activatedAt + LaunchWindow()
      && (!r.session.connectedReported ==>
            r.session.sessionDeadline == r.session.launchDeadline + Seconds(r.session.duration))
      && r.session.sessionDeadline <= r.session.launchDeadline + Seconds(2 * r.session.duration))
  }

  lemma CleanupKeepsTidy(r: Runtime, terminal: Event, reason: Reason)
    requires Tidy(r) && IsTerminal(terminal) && terminal.sessionId == r.session.id
    ensures Tidy(CleanedUp(r, terminal, reason))
    ensures !CleanedUp(r, terminal, reason).Active()
  {
    StoryGrows(r.log, Terminated(reason));
    StoryGrows(r.log + [Terminated(reason)], terminal);
  }

  lemma PrepareKeepsTidy(r: Runtime, sessionId: string, roomId: string, duration: int, o: Outside)
    requires Tidy(r)
    ensures Tidy(Prepared(r, sessionId, roomId, duration, o))
  {
    if r.session.id == sessionId {
      StoryGrows(r.log, LaunchAck(sessionId));
    } else if r.Active() {
      StoryGrows(r.log, SessionFailed(sessionId, HostBusy));
    } else if !ValidLaunch(sessionId, roomId, duration, o.gameFound) {
      StoryGrows(r.log, SessionFailed(sessionId, InvalidLaunch));
    } else if !o.launchWorks {
      StoryGrows(r.log, SessionFailed(sessionId, LaunchFailed));
    } else {
      StoryGrows(r.log, Authorized(sessionId));
      StoryGrows(r.log + [Authorized(sessionId)], LaunchAck(sessionId));
    }
  }

  lemma CommandKeepsTidy(r: Runtime, o: Outside)
    requires Tidy(r)
    ensures Tidy(CommandApplied(r, o))
  {
    if r.commands != [] {
      var rest := r.(commands := r.commands[1..]);
      assert Tidy(rest);
      match r.commands[0] {
        case ControlReady => StoryGrows(r.log, Hello(r.session.id));
        case SessionStop(sessionId, reason) =>
          CleanupKeepsTidy(rest, SessionEnded(r.session.id, Requested(reason)), Requested(reason));
        case SessionPrepare(sessionId, roomId, duration) => PrepareKeepsTidy(rest, sessionId, roomId, duration, o);
      }
    }
  }

  /** The session of the state is within its deadlines at the given time. */
  predicate Timely(r: Runtime, now: int) {
    r.Active() ==> now < r.session.sessionDeadline && (!r.capture ==> now < r.session.launchDeadline)
  }

  lemma SearchKeepsTidy(r: Runtime, settings: Settings, o: Outside)
    requires Tidy(r) && !r.capture && (r.Active() ==> o.now < r.session.sessionDeadline)
    ensures Tidy(Searched(r, settings, o)) && Timely(Searched(r, settings, o), o.now)
  {
    if r.Active() && o.now >= r.session.launchDeadline {
      CleanupKeepsTidy(r, SessionFailed(r.session.id, LaunchTimeout), Because(LaunchTimeout));
    }
  }

  lemma LossKeepsTidy(r: Runtime, settings: Settings, o: Outside)
    requires Tidy(r) && r.capture && (r.Active() ==> o.now < r.session.sessionDeadline)
    ensures Tidy(WindowLost(r, settings, o)) && Timely(WindowLost(r, settings, o), o.now)
  {
    var noticed := r.(invalidSince := if r.invalidSince == 0 then o.now else r.invalidSince);
    if r.Active() {
      CleanupKeepsTidy(noticed, SessionFailed(r.session.id, GameExited), Because(GameExited));
    }
  }

  lemma ReportKeepsTidy(r: Runtime, o: Outside)
    requires Tidy(r) && r.capture && (r.Active() ==> o.now < r.session.sessionDeadline)
    ensures Tidy(Reported(r, o)) && Timely(Reported(r, o), o.now) && Reported(r, o).capture
  {
    StoryGrows(r.log, StreamConnected(r.session.id));
    StoryGrows(r.log, GameReady(r.session.id));
  }

  /** One tick keeps the invariant, and a session that is still active after it is within its deadlines. */
  lemma TickKeepsTidy(r: Runtime, settings: Settings, o: Outside)
    requires Tidy(r)
    ensures Tidy(Ticked(r, settings, o)) && Timely(Ticked(r, settings, o), o.now)
  {
    CommandKeepsTidy(r, o);
    TickBodyKeepsTidy(CommandApplied(r, o), settings, o);
  }

  lemma TickBodyKeepsTidy(r: Runtime, settings: Settings, o: Outside)
    requires Tidy(r)
    ensures Tidy(TickedBody(r, settings, o)) && Timely(TickedBody(r, settings, o), o.now)
  {
    var s := SelectionApplied(r, o);
    assert Tidy(s);
    if s.Active() && o.now >= s.session.sessionDeadline {
      CleanupKeepsTidy(s, SessionEnded(s.session.id, DurationExpired), DurationExpired);
    } else if !s.capture {
      SearchKeepsTidy(s, settings, o);
    } else if !o.windowValid {
      LossKeepsTidy(s, settings, o);
    } else {
      ReportKeepsTidy(s.(invalidSince := 0), o);
    }
  }

  lemma StopKeepsTidy(r: Runtime)
    requires Tidy(r)
    ensures Tidy(Halted(r))
  {
    CleanupKeepsTidy(r, SessionFailed(r.session.id, HostStopped), Because(HostStopped));
  }

  lemma {:induction false} RunKeepsTidy(r: Runtime, settings: Settings, actions: seq<Action>)
    requires Tidy(r)
    ensures Tidy(After(r, settings, actions))
  {
    if actions != [] {
      var before := After(r, settings, actions[..|actions| - 1]);
      var last := actions[|actions| - 1];
      RunKeepsTidy(r, settings, actions[..|actions| - 1]);
      if last.Tick? {
        TickKeepsTidy(before, settings, last.outside);
      } else if last.Stop? {
        StopKeepsTidy(before);
      }
    }
  }

  // ---------------------------------------------------------------------------------------------
  // The main results
  // ---------------------------------------------------------------------------------------------

  /** Over every run of commands, selections, ticks and stops: activations and terminal reports alternate, each terminal
      report names the session activated before it, and a session without one is the active session. */
  lemma ExactlyOneTerminalReport(now: int, settings: Settings, actions: seq<Action>)
    ensures var r := After(Started(now), settings, actions);
            && StoryOf(r.log) == (if !r.Active() then NoSession else OneSession(r.session.id))
            && (r.state == Stopped ==> StoryOf(r.log) == NoSession)
            && (r.state == Idle ==> !r.Active() && !r.capture)
  {
    RunKeepsTidy(Started(now), settings, actions);
  }

  /** A session that survives a tick is inside both deadlines; the session deadline is extended at most once, so that no
      session lives longer than the launch window and twice its duration. */
  lemma SessionLifetimeIsBounded(now: int, settings: Settings, actions: seq<Action>, o: Outside)
    requires After(Started(now), settings, actions).state != Stopped
    ensures var r := After(Started(now), settings, actions + [Tick(o)]);
            r.Active() ==>
              && o.now < r.session.sessionDeadline
                       <= r.session.activatedAt + LaunchWindow() + Seconds(2 * r.session.duration)
              && (!r.capture ==> o.now < r.session.activatedAt + LaunchWindow())
  {
    RunKeepsTidy(Started(now), settings, actions);
    TickKeepsTidy(After(Started(now), settings, actions), settings, o);
    assert (actions + [Tick(o)])[..|actions|] == actions;
  }

  /** Over every run: when the runtime answers that it is busy, another session is open, and when it acknowledges a
      launch, the open session is the one acknowledged. */
  lemma AnswersFitTheOpenSession(now: int, settings: Settings, actions: seq<Action>, i: nat)
    requires i < |After(Started(now), settings, actions).log|
    ensures var log := After(Started(now), settings, actions).log;
            && (log[i].SessionFailed? && log[i].code.HostBusy? ==>
                  exists open :: StoryOf(log[..i]) == OneSession(open) && open != log[i].sessionId)
            && (log[i].LaunchAck? && log[i].sessionId != "" ==> StoryOf(log[..i]) == OneSession(log[i].sessionId))
  {
    RunKeepsTidy(Started(now), settings, actions);
    EachFits(After(Started(now), settings, actions).log, i);
  }

  /** Preparing the active session again only acknowledges it again, and preparing another one only answers that the
      host is busy. */
  lemma PrepareWhileActive(r: Runtime, sessionId: string, roomId: string, duration: int, o: Outside)
    requires r.Active() && r.commands != [] && r.commands[0] == SessionPrepare(sessionId, roomId, duration)
    ensures CommandApplied(r, o) == r.(
              commands := r.commands[1..],
              log := r.log + [if sessionId == r.session.id then LaunchAck(sessionId)
                              else SessionFailed(sessionId, HostBusy)])
  {
  }
}
