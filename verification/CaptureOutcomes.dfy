/** What becomes of every attempt to enable or restore screen capture: it goes on exactly as far as the user, the
    sign-in, the native side and the selection allow. */
module CaptureOutcomes {
  import opened Wrappers
  import opened ScreenCapture

  lemma RunStep(states: seq<State>, events: seq<Event>, n: nat)
    requires IsRun(states, events) && 0 < n < |states|
    ensures |states| == |events| + 1 && Sound(states[n - 1])
    ensures Enabled(states[n - 1], events[n - 1]) && states[n] == Step(states[n - 1], events[n - 1])
  {
    RunSound(states, events, n - 1);
    hide Sound, Step, Enabled;
    assert states[n - 1 + 1] == Step(states[n - 1], events[n - 1]);
  }

  lemma RunStart(states: seq<State>, events: seq<Event>, e: nat)
    requires IsRun(states, events)
    ensures |states| == |events| + 1 && e !in states[0].enables && e !in states[0].restores
    ensures !GivenUp(states[0], e) && !TurnedOn(states[0], e) && forall p :: !Reached(states[0], e, p)
  {
    hide Step, Enabled;
  }

  // ---------------------------------------------------------------------------------------------
  // Enables
  // ---------------------------------------------------------------------------------------------

  /** The code of `enable` is resumed before its setting is turned on. */
  predicate Resumes(ev: Event, e: nat) {
    || (ev.Confirmed? && ev.enable == e) || (ev.Polled? && ev.enable == e) || ev == Authorized(e) || ev == ResetDone(e)
    || (ev.ConnectReply? && ev.owner == ByEnable(e))
  }

  predicate IsCurrent(s: State, e: nat) {
    e in s.enables && Current(s, s.enables[e])
  }

  /** The user declines, a step fails, or the enable is no longer the current one when it resumes. */
  predicate GivesUp(s: State, ev: Event, e: nat) {
    || ev == Confirmed(e, false) || ev == EnableFails(e) || ev == ConnectReply(ByEnable(e), false)
    || (Resumes(ev, e) && !IsCurrent(s, e))
  }

  /** The native connect succeeded for an enable that is still the current one. */
  predicate Succeeds(s: State, ev: Event, e: nat) {
    ev == ConnectReply(ByEnable(e), true) && IsCurrent(s, e)
  }

  /** It ended without success, or is only taking its connection down again. */
  predicate GivenUp(s: State, e: nat) {
    e in s.enables && (s.enables[e].phase == Ended(false) || s.enables[e].phase.Disconnecting?)
  }

  predicate TurnedOn(s: State, e: nat) {
    e in s.enables && (s.enables[e].phase.Saving? || s.enables[e].phase == Ended(true))
  }

  /** How far an enable that has not been given up has come. */
  function Progress(phase: Phase): nat {
    match phase
    case Confirming => 0
    case Polling => 1
    case Authorizing => 2
    case Resetting => 3
    case Connecting(_) => 4
    case _ => 5
  }

  predicate Reached(s: State, e: nat, progress: nat) {
    e in s.enables && !GivenUp(s, e) && Progress(s.enables[e].phase) >= progress
  }

  /** The event takes a current enable that far: the user allows it, its instance's sign-in is known, is found or
      made, the native reset is done, the native connect succeeds. */
  predicate Reaches(s: State, ev: Event, e: nat, progress: nat) {
    && IsCurrent(s, e)
    && match progress
       case 1 => ev == Confirmed(e, true)
       case 2 => ev.Polled? && ev.enable == e
       case 3 => ev == Polled(e, true) || ev == Authorized(e)
       case 4 => ev == ResetDone(e)
       case _ => ev == ConnectReply(ByEnable(e), true)
  }

  predicate IsResume(ev: Event) {
    ev.Confirmed? || ev.Polled? || ev.Authorized? || ev.ResetDone? || ev.EnableFails? || ev.Saved?
  }

  /** Where the code of an enable waits next. */
  lemma ResumePhase(s: State, ev: Event) returns (phase: Phase)
    requires Enabled(s, ev) && IsResume(ev)
    ensures ev.enable in s.enables
    ensures Step(s, ev).enables == s.enables[ev.enable := s.enables[ev.enable].(phase := phase)]
    ensures phase == if ev.Saved? then Ended(true)
                     else if ev.EnableFails? || !IsCurrent(s, ev.enable) then Ended(false)
                     else if ev == Confirmed(ev.enable, false) then Ended(false)
                     else if ev.Confirmed? then Polling
                     else if ev == Polled(ev.enable, false) then Authorizing
                     else if ev.Polled? || ev.Authorized? then Resetting else Connecting(NotRun)
  {
    phase := Step(s, ev).enables[ev.enable].phase;
    hide Current;
  }

  lemma ResumeOutcome(s: State, ev: Event, e: nat)
    requires Enabled(s, ev) && IsResume(ev)
    ensures GivenUp(Step(s, ev), e) <==> GivenUp(s, e) || GivesUp(s, ev, e)
    ensures TurnedOn(Step(s, ev), e) <==> TurnedOn(s, e) || Succeeds(s, ev, e)
  {
    var phase := ResumePhase(s, ev);
    hide Step, Current;
  }

  lemma RunsOutcome(s: State, ev: Event, e: nat)
    requires Enabled(s, ev) && (ev.ConnectRuns? || ev.Disconnected?)
    ensures GivenUp(Step(s, ev), e) <==> GivenUp(s, e) || GivesUp(s, ev, e)
    ensures TurnedOn(Step(s, ev), e) <==> TurnedOn(s, e) || Succeeds(s, ev, e)
  {}

  /** The call that a native connect's answer resumes moves on; the other enables stay. */
  lemma ReplyPhase(s: State, ev: Event, e: nat)
    requires Enabled(s, ev) && ev.ConnectReply?
    ensures e in Step(s, ev).enables <==> e in s.enables
    ensures e in s.enables && ev.owner != ByEnable(e) ==> Step(s, ev).enables[e] == s.enables[e]
    ensures e in s.enables && ev.owner == ByEnable(e) ==>
              Step(s, ev).enables[e].phase
                == if !ev.ok then Ended(false) else if IsCurrent(s, e) then Saving else Disconnecting
  {
    var phase := ReplyMoves(s, ev);
    if ev.owner.ByRestore? { hide Step; }
  }

  lemma ReplyOutcome(s: State, ev: Event, e: nat)
    requires Enabled(s, ev) && ev.ConnectReply?
    ensures GivenUp(Step(s, ev), e) <==> GivenUp(s, e) || GivesUp(s, ev, e)
    ensures TurnedOn(Step(s, ev), e) <==> TurnedOn(s, e) || Succeeds(s, ev, e)
  {
    ReplyPhase(s, ev, e);
    hide Step, Current;
  }

  lemma OtherOutcome(s: State, ev: Event, e: nat)
    requires Enabled(s, ev)
    requires !IsResume(ev)
    requires !(ev.ConnectRuns? || ev.ConnectReply? || ev.Disconnected?)
    ensures GivenUp(Step(s, ev), e) <==> GivenUp(s, e) || GivesUp(s, ev, e)
    ensures TurnedOn(Step(s, ev), e) <==> TurnedOn(s, e) || Succeeds(s, ev, e)
  {}

  lemma OutcomeStep(s: State, ev: Event, e: nat)
    requires Enabled(s, ev)
    ensures GivenUp(Step(s, ev), e) <==> GivenUp(s, e) || GivesUp(s, ev, e)
    ensures TurnedOn(Step(s, ev), e) <==> TurnedOn(s, e) || Succeeds(s, ev, e)
  {
    hide Step, Enabled, GivenUp, GivesUp, TurnedOn, Succeeds;
    if IsResume(ev) {
      ResumeOutcome(s, ev, e);
    } else if ev.ConnectReply? {
      ReplyOutcome(s, ev, e);
    } else if ev.ConnectRuns? || ev.Disconnected? {
      RunsOutcome(s, ev, e);
    } else {
      OtherOutcome(s, ev, e);
    }
  }

  /** Over every run an enable is given up exactly if the user declined it, a step of it failed, or it was no longer
      the current one when it resumed; it turned the setting on exactly if its native connect succeeded while it was
      the current one. */
  lemma {:induction false} EnableExactly(states: seq<State>, events: seq<Event>, n: nat, e: nat)
    requires IsRun(states, events) && n < |states|
    ensures GivenUp(states[n], e) <==> exists k :: 0 <= k < n && GivesUp(states[k], events[k], e)
    ensures TurnedOn(states[n], e) <==> exists k :: 0 <= k < n && Succeeds(states[k], events[k], e)
    decreases n
  {
    hide *;
    RunStart(states, events, e);
    if n > 0 {
      RunStep(states, events, n);
      EnableExactly(states, events, n - 1, e);
      OutcomeStep(states[n - 1], events[n - 1], e);
    }
  }

  lemma ResumeReaches(s: State, ev: Event, e: nat, progress: nat)
    requires Enabled(s, ev) && IsResume(ev) && 1 <= progress <= 5 && !GivenUp(Step(s, ev), e)
    ensures Reached(Step(s, ev), e, progress) <==> Reached(s, e, progress) || Reaches(s, ev, e, progress)
  {
    var phase := ResumePhase(s, ev);
    hide Step, Current;
  }

  lemma ReplyReaches(s: State, ev: Event, e: nat, progress: nat)
    requires Enabled(s, ev) && ev.ConnectReply?
    requires 1 <= progress <= 5 && !GivenUp(Step(s, ev), e)
    ensures Reached(Step(s, ev), e, progress) <==> Reached(s, e, progress) || Reaches(s, ev, e, progress)
  {
    ReplyPhase(s, ev, e);
    hide Step, Current;
  }

  lemma OtherReaches(s: State, ev: Event, e: nat, progress: nat)
    requires Enabled(s, ev) && !ev.ConnectReply?
    requires !IsResume(ev)
    requires 1 <= progress <= 5 && !GivenUp(Step(s, ev), e)
    ensures Reached(Step(s, ev), e, progress) <==> Reached(s, e, progress) || Reaches(s, ev, e, progress)
  {}

  lemma ReachStep(s: State, ev: Event, e: nat, progress: nat)
    requires Enabled(s, ev) && 1 <= progress <= 5 && !GivenUp(Step(s, ev), e)
    ensures !GivenUp(s, e)
    ensures Reached(Step(s, ev), e, progress) <==> Reached(s, e, progress) || Reaches(s, ev, e, progress)
  {
    hide Step, Enabled, GivenUp, GivesUp, TurnedOn, Succeeds, Reached, Reaches;
    OutcomeStep(s, ev, e);
    if IsResume(ev) {
      ResumeReaches(s, ev, e, progress);
    } else if ev.ConnectReply? {
      ReplyReaches(s, ev, e, progress);
    } else {
      OtherReaches(s, ev, e, progress);
    }
  }

  /** Over every run an enable that has not been given up has come to each point exactly if the event that leads
      there found it current: allowed by the user, polled, signed in, reset, connected. */
  lemma {:induction false} ReachedExactly(states: seq<State>, events: seq<Event>, n: nat, e: nat, progress: nat)
    requires IsRun(states, events) && n < |states| && 1 <= progress <= 5 && !GivenUp(states[n], e)
    ensures Reached(states[n], e, progress)
       <==> exists k :: 0 <= k < n && Reaches(states[k], events[k], e, progress)
    decreases n
  {
    hide *;
    RunStart(states, events, e);
    if n > 0 {
      RunStep(states, events, n);
      ReachStep(states[n - 1], events[n - 1], e, progress);
      ReachedExactly(states, events, n - 1, e, progress);
    }
  }

  /** Progress comes in order. */
  lemma ReachedBefore(s: State, e: nat, progress: nat, earlier: nat)
    requires Reached(s, e, progress) && earlier <= progress
    ensures Reached(s, e, earlier)
  {}

  lemma DisconnectingWasConnected(states: seq<State>, events: seq<Event>, n: nat, e: nat)
    requires IsRun(states, events) && n < |states|
    requires states[n].session.Some? && states[n].session.value.owner == ByEnable(e)
    ensures Reached(states[n], e, 4)
  {
    RunSound(states, events, n);
    hide Enables, Step, Enabled;
  }

  /** Whatever an enable past its confirmation, with the setting turned on or with the native connection its own: the
      user allowed it. */
  lemma OnlyIfAllowed(states: seq<State>, events: seq<Event>, n: nat, e: nat)
    requires IsRun(states, events) && n < |states| && e in states[n].enables
    requires || TurnedOn(states[n], e)
             || (!states[n].enables[e].phase.Confirming? && !GivenUp(states[n], e))
             || (states[n].session.Some? && states[n].session.value.owner == ByEnable(e))
    ensures exists k :: 0 <= k < n && events[k] == Confirmed(e, true) && IsCurrent(states[k], e)
  {
    if states[n].session.Some? && states[n].session.value.owner == ByEnable(e) {
      DisconnectingWasConnected(states, events, n, e);
    }
    RunSound(states, events, n);
    NeverChecking(states[n], e);
    hide Step, Enabled, Sound;
    assert Reached(states[n], e, 1);
    ReachedExactly(states, events, n, e, 1);
    hide IsRun;
    var k :| 0 <= k < n && Reaches(states[k], events[k], e, 1);
    assert events[k] == Confirmed(e, true);
  }

  lemma NeverChecking(s: State, e: nat)
    requires Sound(s) && e in s.enables
    ensures !s.enables[e].phase.Checking?
  {
    EnableIsSound(s, e);
  }

  // ---------------------------------------------------------------------------------------------
  // A declined enable
  // ---------------------------------------------------------------------------------------------

  /** The user's "Cancel" ends the enable at once and changes neither the setting nor the native side. */
  lemma DeclineStep(s: State, e: nat)
    requires Enabled(s, Confirmed(e, false))
    ensures var s' := Step(s, Confirmed(e, false));
            && e in s'.enables && s'.enables[e].phase == Ended(false)
            && s'.setting == s.setting && s'.session == s.session && s'.disabledByUser == s.disabledByUser
  {}

  /** An enable that has ended stays as it is. */
  lemma EndedStays(s: State, ev: Event, e: nat)
    requires Enabled(s, ev) && e in s.enables && s.enables[e].phase.Ended?
    ensures e in Step(s, ev).enables && Step(s, ev).enables[e].phase == s.enables[e].phase
  {
    if IsResume(ev) {
      var phase := ResumePhase(s, ev);
      hide Step;
    } else if ev.ConnectReply? {
      ReplyPhase(s, ev, e);
      hide Step;
    }
  }

  lemma {:induction false} DeclinedStaysEnded(states: seq<State>, events: seq<Event>, i: nat, j: nat, e: nat)
    requires IsRun(states, events) && i < j < |states| && events[i] == Confirmed(e, false)
    ensures e in states[j].enables && states[j].enables[e].phase == Ended(false)
    ensures var s, s' := states[i], states[i + 1];
            s'.setting == s.setting && s'.session == s.session && s'.disabledByUser == s.disabledByUser
    decreases j
  {
    hide *;
    RunStep(states, events, j);
    RunStep(states, events, i + 1);
    DeclineStep(states[i], e);
    if i + 1 < j {
      DeclinedStaysEnded(states, events, i, j - 1, e);
      EndedStays(states[j - 1], events[j - 1], e);
    }
  }

  // ---------------------------------------------------------------------------------------------
  // The setting and the native side
  // ---------------------------------------------------------------------------------------------

  /** Only a successful enable turns the setting on, for its own origin, and only disabling, or the menu once capture
      is disabled natively, turns it off. */
  lemma SettingChanges(s: State, ev: Event)
    requires Enabled(s, ev)
    ensures Step(s, ev).setting
         == if ev.ConnectReply? && ev.owner.ByEnable? && Succeeds(s, ev, ev.owner.enable)
            then Some(s.enables[ev.owner.enable].origin)
            else if ev.Disable? || ev.MenuClears? then None else s.setting
  {
    if ev.ConnectReply? {
      ReplySetting(s, ev);
      hide Step;
    }
  }

  lemma ReplySetting(s: State, ev: Event)
    requires Enabled(s, ev) && ev.ConnectReply?
    ensures Step(s, ev).setting
         == if ev.owner.ByEnable? && Succeeds(s, ev, ev.owner.enable)
            then Some(s.enables[ev.owner.enable].origin) else s.setting
  {
    if ev.owner.ByEnable? { EnableReply(s, ev.owner.enable, ev.ok); } else { RestoreReply(s, ev.owner.restore, ev.ok); }
    hide Step, Current, Wanted;
  }

  /** A current enable whose instance is signed in starts its native side over. */
  predicate Resets(s: State, ev: Event) {
    (ev.Polled? || ev.Authorized?) && Reaches(s, ev, ev.enable, 3)
  }

  /** A connect reply that finds its call failed or no longer wanted. */
  predicate TakesDown(s: State, ev: Event)
    requires Enabled(s, ev)
  {
    && ev.ConnectReply? && s.session.Some?
    && ((!ev.ok && s.session.value.owner == ev.owner)
        || (s.session.value.origin == CallOf(s, ev.owner).origin
            && if ev.owner.ByEnable? then ev.ok && !Current(s, CallOf(s, ev.owner))
               else !Wanted(s, CallOf(s, ev.owner).origin)))
  }

  /** A native connect that runs while capture is not disabled installs its call's connection; a reset, disabling, a
      change of instance and a reply that takes it down remove the connection; nothing else touches it. */
  lemma ConnectionChanges(s: State, ev: Event)
    requires Enabled(s, ev)
    ensures Step(s, ev).session
         == if ev.ConnectRuns? && !s.disabledByUser then Some(Session(CallOf(s, ev.owner).origin, ev.owner))
            else if Resets(s, ev) || ev.Disable? || ev.DisconnectAll? || TakesDown(s, ev) then None else s.session
    ensures Step(s, ev).disabledByUser == if ev.Disable? then true else s.disabledByUser && !Resets(s, ev)
  {
    if ev.ConnectReply? {
      ReplyConnection(s, ev);
      hide Step;
    }
  }

  lemma ReplyConnection(s: State, ev: Event)
    requires Enabled(s, ev) && ev.ConnectReply?
    ensures Step(s, ev).session == if TakesDown(s, ev) then None else s.session
    ensures Step(s, ev).disabledByUser == s.disabledByUser
  {
    if ev.owner.ByEnable? { EnableReply(s, ev.owner.enable, ev.ok); } else { RestoreReply(s, ev.owner.restore, ev.ok); }
    hide Step, Current, Wanted;
  }

  /** Another call's connect, or a change of instance. */
  predicate Interferes(ev: Event) {
    ev.DisconnectAll? || ((ev.ConnectRuns? || ev.ConnectReply?) && ev.owner.ByRestore?)
  }

  /** The enable waits for the answer of its connect, its connection is there, and nothing overtook it. */
  predicate Connected(s: State, e: nat) {
    && e in s.enables && s.enables[e].phase == Connecting(Installed) && s.enables[e].revision == s.revision
    && s.session == Some(Session(s.enables[e].origin, ByEnable(e)))
  }

  lemma ConnectedStays(s: State, ev: Event, e: nat)
    requires Sound(s) && Enabled(s, ev) && Connected(s, e) && !Interferes(ev) && ev != ConnectReply(ByEnable(e), true)
    requires e in Step(s, ev).enables && Step(s, ev).enables[e].phase == Connecting(Installed)
    requires Step(s, ev).enables[e].revision == Step(s, ev).revision
    ensures Connected(Step(s, ev), e)
  {
    ConnectionChanges(s, ev);
    OthersEnded(s, e);
    if IsResume(ev) {
      var phase := ResumePhase(s, ev);
      hide Step;
    } else if ev.ConnectReply? {
      ReplyPhase(s, ev, e);
      hide Step;
    }
  }

  lemma OthersEnded(s: State, e: nat)
    requires Sound(s) && e in s.enables && !s.enables[e].phase.Ended?
    ensures forall f :: f in s.enables && f != e ==> s.enables[f].phase.Ended?
  {}

  lemma AwaitsReply(s: State, ev: Event, e: nat)
    requires Sound(s) && Enabled(s, ev) && Connected(s, e)
    ensures e in Step(s, ev).enables && Step(s, ev).enables[e].revision == s.enables[e].revision
    ensures || Step(s, ev).enables[e].phase == Connecting(Installed)
            || GivenUp(Step(s, ev), e) || TurnedOn(Step(s, ev), e)
  {
    OthersEnded(s, e);
    if IsResume(ev) {
      var phase := ResumePhase(s, ev);
      hide Step;
    } else if ev.ConnectReply? {
      ReplyPhase(s, ev, e);
      MoveKeepsOrigin(s, ev, e);
      hide Step;
    }
  }

  lemma MoveKeepsOrigin(s: State, ev: Event, e: nat)
    requires Enabled(s, ev) && ev.ConnectReply? && e in s.enables
    ensures e in Step(s, ev).enables && Step(s, ev).enables[e].revision == s.enables[e].revision
  {
    var phase := ReplyMoves(s, ev);
    hide Step, Current, Wanted;
  }

  /** What was given up or turned on is no longer connecting. */
  lemma DecidedStays(states: seq<State>, events: seq<Event>, i: nat, j: nat, e: nat)
    requires IsRun(states, events) && i <= j < |states| && (GivenUp(states[i], e) || TurnedOn(states[i], e))
    ensures e in states[j].enables && !states[j].enables[e].phase.Connecting?
  {
    hide IsRun, GivesUp, Succeeds;
    EnableExactly(states, events, i, e);
    EnableExactly(states, events, j, e);
  }

  lemma NotOvertaken(states: seq<State>, events: seq<Event>, i: nat, j: nat, e: nat)
    requires IsRun(states, events) && i <= j < |states| && e in states[i].enables && IsCurrent(states[j], e)
    ensures states[i].enables[e].revision == states[i].revision
  {
    hide IsRun;
    if states[i].enables[e].revision != states[i].revision {
      OvertakenNeverEnables(states, events, i, j, e);
      OvertakenIsStale(states[j], e);
    }
  }

  lemma InstallStep(s: State, e: nat)
    requires Enabled(s, ConnectRuns(ByEnable(e))) && !s.disabledByUser
    ensures var s' := Step(s, ConnectRuns(ByEnable(e)));
            && e in s'.enables && s'.enables[e].phase == Connecting(Installed)
            && (s'.enables[e].revision == s'.revision ==> Connected(s', e))
  {}

  lemma {:induction false} ConnectionLasts(states: seq<State>, events: seq<Event>, i: nat, m: nat, j: nat, e: nat)
    requires IsRun(states, events) && i < m <= j < |events|
    requires events[i] == ConnectRuns(ByEnable(e)) && !states[i].disabledByUser
    requires events[j] == ConnectReply(ByEnable(e), true) && IsCurrent(states[j], e)
    requires forall k :: i < k < j ==> !Interferes(events[k])
    ensures Connected(states[m], e)
    decreases m
  {
    hide *;
    RunStart(states, events, e);
    RunStep(states, events, m);
    if m == i + 1 {
      InstallStep(states[i], e);
      NotOvertaken(states, events, m, j, e);
    } else {
      var s, ev := states[m - 1], events[m - 1];
      ConnectionLasts(states, events, i, m - 1, j, e);
      AwaitsReply(s, ev, e);
      NotOvertaken(states, events, m, j, e);
      AwaitedAt(states, events, j, e);
      if GivenUp(states[m], e) || TurnedOn(states[m], e) { DecidedStays(states, events, m, j, e); }
      IsNoReply(s, ev, e);
      ConnectedStays(s, ev, e);
    }
  }

  lemma AwaitedAt(states: seq<State>, events: seq<Event>, j: nat, e: nat)
    requires IsRun(states, events) && j < |events| && events[j] == ConnectReply(ByEnable(e), true)
    ensures e in states[j].enables && states[j].enables[e].phase.Connecting?
  {
    RunStep(states, events, j + 1);
    hide IsRun, Step, Sound;
  }

  lemma IsNoReply(s: State, ev: Event, e: nat)
    requires Enabled(s, ev) && e in Step(s, ev).enables && Step(s, ev).enables[e].phase == Connecting(Installed)
    ensures ev != ConnectReply(ByEnable(e), true)
  {
    if ev == ConnectReply(ByEnable(e), true) { ReplyPhase(s, ev, e); }
    hide Step;
  }

  lemma SuccessStep(s: State, e: nat)
    requires Enabled(s, ConnectReply(ByEnable(e), true)) && IsCurrent(s, e) && Connected(s, e)
    ensures var s' := Step(s, ConnectReply(ByEnable(e), true));
            s'.setting == Some(s.enables[e].origin) && s'.session == Some(Session(s.enables[e].origin, ByEnable(e)))
  {}

  /** An enable that is still the current one when its native connect succeeds was allowed by the user and ends with
      the setting on its origin; and its connection is live, if capture was not disabled when the connect ran and no
      restore's connect and no change of instance came in between. */
  lemma CurrentEnableConnects(states: seq<State>, events: seq<Event>, i: nat, j: nat, e: nat)
    requires IsRun(states, events) && i < j < |events|
    requires events[i] == ConnectRuns(ByEnable(e)) && !states[i].disabledByUser
    requires events[j] == ConnectReply(ByEnable(e), true) && IsCurrent(states[j], e)
    requires forall k :: i < k < j ==> !Interferes(events[k])
    ensures var origin := states[j].enables[e].origin;
            states[j + 1].setting == Some(origin) && states[j + 1].session == Some(Session(origin, ByEnable(e)))
    ensures exists k :: 0 <= k < j && events[k] == Confirmed(e, true) && IsCurrent(states[k], e)
  {
    ConnectionLasts(states, events, i, j, j, e);
    RunStep(states, events, j + 1);
    SuccessStep(states[j], e);
    OnlyIfAllowed(states, events, j, e);
    hide *;
  }

  /** Why the last condition is there: a restore from before a disable still connects, finds itself unwanted and takes
      down the connection of the enable that followed, which then turns the setting on without one. */
  lemma OldRestoreTakesDown(s0: State, origin: nat) returns (states: seq<State>, events: seq<Event>)
    requires Initial(s0) && s0.setting == Some(origin) && s0.frontend == origin && s0.switching == 0
    requires !s0.disabledByUser
    ensures IsRun(states, events) && states[0] == s0 && |events| == 11
    ensures events[10] == ConnectReply(ByEnable(0), true) && IsCurrent(states[10], 0)
    ensures states[11].setting == Some(origin) && states[11].session.None?
  {
    hide IsRun, Step, Enabled, Current;
    var s4;
    states, events, s4 := RestoreThenDisable(s0, origin);
    var s7 := AllowedAndReset(s4, origin);
    states, events := OneMore(states, events, s4, Confirmed(0, true));
    states, events := OneMore(states, events, states[5], Polled(0, true));
    states, events := OneMore(states, events, states[6], ResetDone(0));
    var s11 := BothConnect(s7, origin);
    states, events := OneMore(states, events, s7, ConnectRuns(ByEnable(0)));
    states, events := OneMore(states, events, states[8], ConnectRuns(ByRestore(0)));
    states, events := OneMore(states, events, states[9], ConnectReply(ByRestore(0), true));
    states, events := OneMore(states, events, states[10], ConnectReply(ByEnable(0), true));
  }

  lemma OneMore(states: seq<State>, events: seq<Event>, last: State, e: Event)
    returns (more: seq<State>, next: seq<Event>)
    requires IsRun(states, events) && |states| == |events| + 1 && states[|events|] == last && Enabled(last, e)
    ensures IsRun(more, next) && more == states + [Step(last, e)] && next == events + [e]
  {
    hide Step, Enabled;
    more, next := states + [Step(last, e)], events + [e];
  }

  /** A restore has begun to connect, capture was disabled, and an enable of the same origin has started. */
  lemma RestoreThenDisable(s0: State, origin: nat) returns (states: seq<State>, events: seq<Event>, s4: State)
    requires Initial(s0) && s0.setting == Some(origin) && s0.frontend == origin && s0.switching == 0
    requires !s0.disabledByUser
    ensures IsRun(states, events) && |events| == 4 && |states| == 5 && states[0] == s0 && states[4] == s4
    ensures OneOfEach(s4, origin, Confirming)
  {
    events := [StartRestore(0), StatusReply(0, true), Disable, StartEnable(0)];
    var s1 := Step(s0, events[0]);
    var s2 := Step(s1, events[1]);
    var connecting := Call(origin, s0.revision, s0.disables, Connecting(NotRun));
    assert s2 == s1.(restores := map[0 := connecting], restoring := true);
    var s3 := Step(s2, events[2]);
    s4 := Step(s3, events[3]);
    states := [s0, s1, s2, s3, s4];
  }

  /** An enable of the origin is in that phase, with a restore of the same origin about to connect. */
  ghost predicate OneOfEach(s: State, origin: nat, phase: Phase) {
    && s.setting.None? && s.session.None? && s.frontend == origin && s.switching == 0
    && 0 in s.enables && s.enables[0].origin == origin && s.enables[0].revision == s.revision
    && s.enables[0].phase == phase
    && 0 in s.restores && s.restores[0].origin == origin && s.restores[0].phase == Connecting(NotRun)
  }

  lemma AllowedAndReset(s4: State, origin: nat) returns (s7: State)
    requires OneOfEach(s4, origin, Confirming)
    ensures Enabled(s4, Confirmed(0, true))
    ensures var s5 := Step(s4, Confirmed(0, true));
            && Enabled(s5, Polled(0, true))
            && var s6 := Step(s5, Polled(0, true));
               Enabled(s6, ResetDone(0)) && s7 == Step(s6, ResetDone(0))
    ensures OneOfEach(s7, origin, Connecting(NotRun)) && !s7.disabledByUser
  {
    var s5 := Step(s4, Confirmed(0, true));
    assert OneOfEach(s5, origin, Polling);
    var s6 := Step(s5, Polled(0, true));
    assert OneOfEach(s6, origin, Resetting) && !s6.disabledByUser;
    s7 := Step(s6, ResetDone(0));
  }

  lemma BothConnect(s7: State, origin: nat) returns (s11: State)
    requires OneOfEach(s7, origin, Connecting(NotRun)) && !s7.disabledByUser
    ensures Enabled(s7, ConnectRuns(ByEnable(0)))
    ensures var s8 := Step(s7, ConnectRuns(ByEnable(0)));
            && Enabled(s8, ConnectRuns(ByRestore(0)))
            && var s9 := Step(s8, ConnectRuns(ByRestore(0)));
               && Enabled(s9, ConnectReply(ByRestore(0), true))
               && var s10 := Step(s9, ConnectReply(ByRestore(0), true));
                  && Enabled(s10, ConnectReply(ByEnable(0), true)) && IsCurrent(s10, 0)
                  && s11 == Step(s10, ConnectReply(ByEnable(0), true))
    ensures s11.setting == Some(origin) && s11.session.None?
  {
    var s8 := Step(s7, ConnectRuns(ByEnable(0)));
    assert s8.restores == s7.restores && s8.enables[0].phase == Connecting(Installed);
    var s9 := Step(s8, ConnectRuns(ByRestore(0)));
    assert s9.enables == s8.enables && s9.session == Some(Session(origin, ByRestore(0)));
    RestoreReply(s9, 0, true);
    var s10 := Step(s9, ConnectReply(ByRestore(0), true));
    assert s10.session.None? && s10.enables == s8.enables;
    EnableReply(s10, 0, true);
    s11 := Step(s10, ConnectReply(ByEnable(0), true));
  }

  // ---------------------------------------------------------------------------------------------
  // One at a time
  // ---------------------------------------------------------------------------------------------

  /** The flag is up exactly while a call is under way, and only one ever is. */
  ghost predicate FlagSound(calls: map<nat, Call>, flag: bool) {
    && (flag <==> exists k :: k in calls && !calls[k].phase.Ended?)
    && forall k, l :: k in calls && l in calls && !calls[k].phase.Ended? && !calls[l].phase.Ended? ==> k == l
  }

  lemma FlagMoves(calls: map<nat, Call>, flag: bool, k: nat, phase: Phase)
    requires FlagSound(calls, flag) && k in calls && !calls[k].phase.Ended?
    ensures FlagSound(calls[k := calls[k].(phase := phase)], flag && !phase.Ended?)
  {
    var next := calls[k := calls[k].(phase := phase)];
    if !phase.Ended? { assert k in next && !next[k].phase.Ended?; }
  }

  lemma FlagStarts(calls: map<nat, Call>, k: nat, call: Call)
    requires FlagSound(calls, false) && k !in calls && !call.phase.Ended?
    ensures FlagSound(calls[k := call], true)
  {
    assert k in calls[k := call];
  }

  ghost predicate FlagsSound(s: State) {
    FlagSound(s.enables, s.enabling) && FlagSound(s.restores, s.restoring)
  }

  lemma MoveFlags(s: State, s': State, owner: Owner, phase: Phase)
    requires FlagsSound(s) && Known(s, owner) && !CallOf(s, owner).phase.Ended?
    requires s'.enables == Move(s, owner, phase).enables && s'.enabling == Move(s, owner, phase).enabling
    requires s'.restores == Move(s, owner, phase).restores && s'.restoring == Move(s, owner, phase).restoring
    ensures FlagsSound(s')
  {
    match owner
    case ByEnable(e) => FlagMoves(s.enables, s.enabling, e, phase);
    case ByRestore(r) => FlagMoves(s.restores, s.restoring, r, phase);
  }

  lemma ReplyFlags(s: State, ev: Event)
    requires FlagsSound(s) && Enabled(s, ev) && ev.ConnectReply?
    ensures FlagsSound(Step(s, ev))
  {
    if ev.owner.ByEnable? { EnableReply(s, ev.owner.enable, ev.ok); } else { RestoreReply(s, ev.owner.restore, ev.ok); }
    var s' := Step(s, ev);
    hide Step, Current, Wanted, FlagsSound;
    MoveFlags(s, s', ev.owner, CallOf(s', ev.owner).phase);
  }

  lemma ResumeFlags(s: State, ev: Event)
    requires FlagsSound(s) && Enabled(s, ev) && IsResume(ev)
    ensures FlagsSound(Step(s, ev))
  {
    hide Current, FlagsSound;
    var s' := Step(s, ev);
    MoveFlags(s, s', ByEnable(ev.enable), s'.enables[ev.enable].phase);
  }

  lemma OtherFlags(s: State, ev: Event)
    requires FlagsSound(s) && Enabled(s, ev) && !IsResume(ev) && !ev.ConnectReply?
    ensures FlagsSound(Step(s, ev))
  {
    var s' := Step(s, ev);
    match ev
    case StartEnable(e) => if e in s'.enables { FlagStarts(s.enables, e, s'.enables[e]); }
    case StartRestore(r) => if r in s'.restores { FlagStarts(s.restores, r, s'.restores[r]); }
    case StatusReply(r, _) => MoveFlags(s, s', ByRestore(r), s'.restores[r].phase);
    case ConnectRuns(owner) => MoveFlags(s, s', owner, CallOf(s', owner).phase);
    case Disconnected(owner) => MoveFlags(s, s', owner, Ended(false));
    case _ =>
  }

  lemma {:induction false} RunFlags(states: seq<State>, events: seq<Event>, n: nat)
    requires IsRun(states, events) && n < |states|
    ensures FlagsSound(states[n])
    decreases n
  {
    if n == 0 {
      hide Step, Enabled;
    } else {
      RunStep(states, events, n);
      hide *;
      RunFlags(states, events, n - 1);
      var s, ev := states[n - 1], events[n - 1];
      if ev.ConnectReply? {
        ReplyFlags(s, ev);
      } else if IsResume(ev) {
        ResumeFlags(s, ev);
      } else {
        OtherFlags(s, ev);
      }
    }
  }

  /** Over every run each flag is up exactly while a call of its kind is under way, of which there is one at most, so
      an enable or a restore never blocks the next one for good. */
  lemma FlagsExactly(states: seq<State>, events: seq<Event>, n: nat)
    requires IsRun(states, events) && n < |states|
    ensures var s := states[n];
            && (s.enabling <==> exists e :: e in s.enables && !s.enables[e].phase.Ended?)
            && (s.restoring <==> exists r :: r in s.restores && !s.restores[r].phase.Ended?)
            && forall q, r :: q in s.restores && r in s.restores ==>
                 s.restores[q].phase.Ended? || s.restores[r].phase.Ended? || q == r
  {
    RunFlags(states, events, n);
    hide IsRun;
  }

  /** A click on "Enable" starts an enable of the page's origin exactly if no switch is under way, none is running
      and capture is off there; it overtakes all before it. */
  lemma StartsExactly(s: State, e: nat)
    requires Enabled(s, StartEnable(e))
    ensures var s' := Step(s, StartEnable(e));
            && (e in s'.enables <==> s.switching == 0 && !s.enabling && s.setting != Some(s.frontend))
            && (e in s'.enables ==> s'.enables[e].origin == s.frontend && s'.enables[e].phase.Confirming?
                                    && IsCurrent(s', e) && s'.revision > s.revision)
            && (e !in s'.enables ==> s' == s)
  {}

  /** A switch counts until it ends, the page moves, and only disabling and an accepted enable overtake what was
      current. */
  ghost predicate SelectionFollows(s: State, ev: Event, s': State) {
    && s'.switching == s.switching + (if ev.BeginSwitch? then 1 else 0) - (if ev.EndSwitch? then 1 else 0)
    && s'.frontend == (if ev.MoveFrontend? then ev.origin else s.frontend)
    && s'.disables == s.disables + (if ev.Disable? then 1 else 0)
    && s'.revision == s.revision + if ev.Disable? || Accepted(s, ev) then 1 else 0
  }

  predicate Accepted(s: State, ev: Event) {
    ev.StartEnable? && s.switching == 0 && !s.enabling && s.setting != Some(s.frontend)
  }

  lemma ReplySelection(s: State, ev: Event)
    requires Enabled(s, ev) && ev.ConnectReply?
    ensures SelectionFollows(s, ev, Step(s, ev))
  {
    if ev.owner.ByEnable? {
      EnableReply(s, ev.owner.enable, ev.ok);
    } else {
      RestoreReply(s, ev.owner.restore, ev.ok);
    }
    hide Step, Current, Wanted;
  }

  lemma ResumeSelection(s: State, ev: Event)
    requires Enabled(s, ev) && IsResume(ev)
    ensures SelectionFollows(s, ev, Step(s, ev))
  {
    hide Current;
  }

  lemma OtherSelection(s: State, ev: Event)
    requires Enabled(s, ev) && !IsResume(ev) && !ev.ConnectReply?
    ensures SelectionFollows(s, ev, Step(s, ev))
  {
    hide Current, Wanted;
  }

  lemma SelectionChanges(s: State, ev: Event)
    requires Enabled(s, ev)
    ensures SelectionFollows(s, ev, Step(s, ev))
  {
    hide Step, SelectionFollows, Enabled;
    if ev.ConnectReply? {
      ReplySelection(s, ev);
    } else if IsResume(ev) {
      ResumeSelection(s, ev);
    } else {
      OtherSelection(s, ev);
    }
  }

  // ---------------------------------------------------------------------------------------------
  // Restores
  // ---------------------------------------------------------------------------------------------

  /** The setting is on for the page's origin, no switch and no other restore is under way. */
  predicate StartsRestore(s: State, ev: Event, r: nat, origin: nat) {
    && ev == StartRestore(r) && r !in s.restores && s.setting == Some(origin) && s.frontend == origin
    && s.switching == 0 && !s.restoring
  }

  /** There was no connection, and capture was not disabled natively. */
  predicate WasClear(s: State) {
    s.session.None? && !s.disabledByUser
  }

  /** The native side can connect, and the restore is still wanted. */
  predicate MayConnect(s: State, ev: Event, r: nat, origin: nat) {
    ev == StatusReply(r, true) && Wanted(s, origin)
  }

  lemma RestoreCallStays(s: State, ev: Event, r: nat)
    requires Enabled(s, ev) && r in s.restores
    ensures r in Step(s, ev).restores && Step(s, ev).restores[r].origin == s.restores[r].origin
    ensures Step(s, ev).restores[r].phase.Checking? ==> Step(s, ev).restores[r].phase == s.restores[r].phase
  {
    if ev.ConnectReply? {
      if ev.owner.ByEnable? {
        EnableReply(s, ev.owner.enable, ev.ok);
      } else {
        RestoreReply(s, ev.owner.restore, ev.ok);
      }
      hide Step, Current, Wanted;
    }
  }

  lemma RestoreBegins(s: State, ev: Event, r: nat)
    requires Enabled(s, ev) && r !in s.restores
    ensures r in Step(s, ev).restores <==> s.setting.Some? && StartsRestore(s, ev, r, s.setting.value)
    ensures r in Step(s, ev).restores ==>
              Step(s, ev).restores[r].origin == s.frontend && Step(s, ev).restores[r].phase == Checking(WasClear(s))
  {
    if ev.ConnectReply? {
      if ev.owner.ByEnable? {
        EnableReply(s, ev.owner.enable, ev.ok);
      } else {
        RestoreReply(s, ev.owner.restore, ev.ok);
      }
      hide Step, Current, Wanted;
    }
  }

  /** Every restore was started with the setting on for its origin; while it checks, it knows whether there was
      neither a connection nor a native disable then. */
  lemma {:induction false} RestoreStarted(states: seq<State>, events: seq<Event>, n: nat, r: nat) returns (k: nat)
    requires IsRun(states, events) && n < |states| && r in states[n].restores
    ensures k < n && |states| == |events| + 1 && StartsRestore(states[k], events[k], r, states[n].restores[r].origin)
    ensures states[n].restores[r].phase.Checking? ==> states[n].restores[r].phase == Checking(WasClear(states[k]))
    decreases n
  {
    hide *;
    RunStart(states, events, r);
    RunStep(states, events, n);
    var s, ev := states[n - 1], events[n - 1];
    if r in s.restores {
      RestoreCallStays(s, ev, r);
      k := RestoreStarted(states, events, n - 1, r);
    } else {
      RestoreBegins(s, ev, r);
      StartsForFrontend(s, ev, r);
      k := n - 1;
    }
  }

  lemma StartsForFrontend(s: State, ev: Event, r: nat)
    ensures s.setting.Some? && StartsRestore(s, ev, r, s.setting.value) ==> s.setting.value == s.frontend
  {}

  /** A restore goes on to connect exactly if its native status allows it, it is still wanted, and when it started
      there was no connection and no native disable. */
  lemma RestoreConnectsExactly(states: seq<State>, events: seq<Event>, n: nat, r: nat, capable: bool)
    requires IsRun(states, events) && n < |events| && events[n] == StatusReply(r, capable)
    ensures r in states[n].restores && r in states[n + 1].restores
    ensures exists k ::
              && 0 <= k < n && StartsRestore(states[k], events[k], r, states[n].restores[r].origin)
              && states[n + 1].restores[r].phase
                 == if MayConnect(states[n], events[n], r, states[n].restores[r].origin) && WasClear(states[k])
                    then Connecting(NotRun) else Ended(false)
  {
    RunStep(states, events, n + 1);
    StatusOutcome(states[n], r, capable);
    hide *;
    var k := RestoreStarted(states, events, n, r);
  }

  lemma StatusOutcome(s: State, r: nat, capable: bool)
    requires Enabled(s, StatusReply(r, capable))
    ensures r in s.restores && s.restores[r].phase.Checking? && r in Step(s, StatusReply(r, capable)).restores
    ensures Step(s, StatusReply(r, capable)).restores[r].phase
         == if MayConnect(s, StatusReply(r, capable), r, s.restores[r].origin)
               && s.restores[r].phase == Checking(true) then Connecting(NotRun) else Ended(false)
  {}
}
