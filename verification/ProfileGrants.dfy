/**
 Which stream profiles are granted: the sizes, frame rates and bitrates on offer, and what a client must be
 able to show; over every run no other profile is pending, held by the consumer or active.
 */
module ProfileGrants {
  import opened Common
  import opened StreamProfiles

  /** 720p, 1080p or 1440p at 30 or 60 frames a second, or at 120 if that is allowed, with a bitrate within limits. */
  predicate OnOffer(allow120Fps: bool, minBitrate: int, maxBitrate: int, p: Profile) {
    && (p.width, p.height) in {(1280, 720), (1920, 1080), (2560, 1440)}
    && (p.fps in {30, 60} || (p.fps == 120 && allow120Fps))
    && minBitrate <= p.bitrate <= maxBitrate
  }

  /** The client decodes H.264 and nothing of the profile is too much for it. */
  predicate CanShow(c: Capabilities, p: Profile) {
    && c.h264
    && c.maxWidth - p.width >= 0 && c.maxHeight - p.height >= 0 && c.maxFps - p.fps >= 0
    && c.maxBitrate - p.bitrate >= 0
  }

  /** Configured limits between 500 kbps and 50 Mbps hold as they are; a minimum outside is moved to the nearer end, and
      a maximum that is too high or below the minimum likewise. */
  lemma LimitsFollowConfiguration(allow120Fps: bool, low: int, high: int)
    ensures var limits := ConfiguredLimits(allow120Fps, low, high);
            && limits.allow120Fps == allow120Fps
            && (500_000 <= low <= 50_000_000 ==> limits.minBitrate == low)
            && (low < 500_000 ==> limits.minBitrate == 500_000)
            && (low > 50_000_000 ==> limits.minBitrate == 50_000_000)
            && (limits.minBitrate <= high <= 50_000_000 ==> limits.maxBitrate == high)
            && (high < limits.minBitrate ==> limits.maxBitrate == limits.minBitrate)
            && (high > 50_000_000 ==> limits.maxBitrate == 50_000_000)
  {
  }

  lemma SupportedIsOnOffer(limits: Limits, p: Profile)
    ensures Supported(limits, p) <==> OnOffer(limits.allow120Fps, limits.minBitrate, limits.maxBitrate, p)
  {
  }

  /** A request is pending afterwards exactly if it comes from a session, is on offer and its client can show it; any
      other request leaves nothing pending and is rejected. Both are noted with their session. */
  lemma RequestIsGrantedIff(limits: Limits, s: System, session: string, p: Profile, c: Capabilities)
    ensures var h := Step(limits, s, Request(session, p, c)).h;
            var granted := session != "" && CanShow(c, p)
                           && OnOffer(limits.allow120Fps, limits.minBitrate, limits.maxBitrate, p);
            && h.requested == Some(p) && h.requestedBySession == session
            && h.pending == (if granted then Some(p) else None)
            && h.state == (if granted then Pending else Rejected)
  {
    SupportedIsOnOffer(limits, p);
  }

  /** The operator's default becomes the request when he asks for it, or when the session that asked last ends; the
      end of another session changes nothing. */
  lemma DefaultReturns(limits: Limits, s: System, session: string)
    ensures var asked, cleared := Step(limits, s, OperatorDefault), Step(limits, s, ClearSession(session));
            && asked.h.requested == asked.h.pending == Some(s.h.operatorDefault)
            && asked.h.requestedBySession == "" && asked.h.state == Pending
            && asked.h.operatorDefault == s.h.operatorDefault
            && cleared == if s.h.requestedBySession == session then asked else s
  {
  }

  /** A pending profile of the size of the active one, with no bitrate change pending, is active at once when it is
      taken; any other is held until the encoder is opened. Nothing else makes a profile active. */
  lemma TakeWaitsForEncoder(limits: Limits, s: System, bitratePending: bool, p: Profile)
    requires Inv(limits, s) && s.h.pending == Some(p)
    ensures var next := Step(limits, s, Take(bitratePending));
            var fits := !bitratePending && s.h.active.Some?
                        && (s.h.active.value.width, s.h.active.value.height) == (p.width, p.height);
            && next.h.pending == None
            && next.h.active == (if fits then Some(p) else s.h.active)
            && next.awaiting == (if fits then None else Some(p))
            && next.h.state == if fits then Active else s.h.state
  {
  }

  /** The encoder's report is on the profile held: it makes it active if that is still the one requested and the
      encoder was opened, and rejected if it was not. */
  lemma ReportSettlesHeld(limits: Limits, s: System, success: bool)
    ensures var next := Step(limits, s, if success then EncoderOpened else EncoderFailed);
            var current := s.awaiting.Some? && s.awaiting == s.h.requested;
            && next.awaiting == None && next.h.pending == s.h.pending && next.h.requested == s.h.requested
            && next.h.active == (if current && success then s.awaiting else s.h.active)
            && next.h.state == if !current then s.h.state else if success then Active else Rejected
  {
  }

  // ---------------------------------------------------------------------------------------------
  // Every run
  // ---------------------------------------------------------------------------------------------

  predicate RequestedBy(actions: seq<Action>, session: string, p: Profile, c: Capabilities) {
    Request(session, p, c) in actions && session != "" && CanShow(c, p)
  }

  /** The operator's default, or asked for in a session by a client that can show it. */
  ghost predicate Backed(actions: seq<Action>, operatorDefault: Profile, p: Option<Profile>) {
    p.Some? ==>
      p.value == operatorDefault || exists session, c :: RequestedBy(actions, session, p.value, c)
  }

  ghost predicate AllBacked(actions: seq<Action>, operatorDefault: Profile, s: System) {
    && s.h.operatorDefault == operatorDefault
    && Backed(actions, operatorDefault, s.h.pending) && Backed(actions, operatorDefault, s.h.active)
    && Backed(actions, operatorDefault, s.awaiting)
  }

  lemma BackedStays(actions: seq<Action>, more: Action, operatorDefault: Profile, p: Option<Profile>)
    requires Backed(actions, operatorDefault, p)
    ensures Backed(actions + [more], operatorDefault, p)
  {
    if p.Some? && p.value != operatorDefault {
      var session, c :| RequestedBy(actions, session, p.value, c);
      assert RequestedBy(actions + [more], session, p.value, c);
    }
  }

  lemma {:induction false} RunIsBacked(limits: Limits, s: System, actions: seq<Action>)
    requires Start(limits, s)
    ensures AllBacked(actions, s.h.operatorDefault, Run(limits, s, actions))
  {
    if actions != [] {
      var before, last := actions[..|actions| - 1], actions[|actions| - 1];
      var now := Run(limits, s, before);
      RunIsBacked(limits, s, before);
      BackedStays(before, last, s.h.operatorDefault, now.h.pending);
      BackedStays(before, last, s.h.operatorDefault, now.h.active);
      BackedStays(before, last, s.h.operatorDefault, now.awaiting);
      assert actions == before + [last];
      if last.Request? && Grants(limits, last.session, last.profile, last.capabilities) {
        assert RequestedBy(actions, last.session, last.profile, last.capabilities);
      }
    }
  }

  /** Over every run of a configured host the profile that is active is on offer, and is the operator's default or
      was asked for in a session by a client that can show it, even when a later request for it was refused. */
  lemma ActiveProfileIsOffered(allow120Fps: bool, low: int, high: int, s: System, actions: seq<Action>)
    requires Start(ConfiguredLimits(allow120Fps, low, high), s)
    ensures var limits := ConfiguredLimits(allow120Fps, low, high);
            var active := Run(limits, s, actions).h.active;
            active.Some? ==>
              && OnOffer(allow120Fps, limits.minBitrate, limits.maxBitrate, active.value)
              && (active.value == s.h.operatorDefault
                  || exists session, c :: RequestedBy(actions, session, active.value, c))
  {
    var limits := ConfiguredLimits(allow120Fps, low, high);
    HandshakeIsSound(limits, s, actions);
    RunIsBacked(limits, s, actions);
    var active := Run(limits, s, actions).h.active;
    if active.Some? {
      SupportedIsOnOffer(limits, active.value);
    }
  }
}
