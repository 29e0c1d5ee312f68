/** The tray's screen-capture switch: enabling, restoring and disabling the native connection while the
    user and the instance selection change under it. One event is the code between two awaits; native
    commands that answer at once take effect when they are called, the connect runs later on its own. */
module ScreenCapture {
  import opened Wrappers

  datatype Owner = ByEnable(enable: nat) | ByRestore(restore: nat)

  /** The live native connection and the call that made it. */
  datatype Session = Session(origin: nat, owner: Owner)

  /** What the native connect did so far. */
  datatype Connect = NotRun | Installed | RefusedOff

  /** Where a call waits; Ended(true) is an enable that turned the setting on. */
  datatype Phase = Confirming | Polling | Authorizing | Resetting | Checking(clear: bool) | Connecting(connect: Connect)
                 | Disconnecting | Saving | Ended(accepted: bool)

  /** `revision` is the value the call compares desktopCaptureRevision with; `disables` is history: how many
      times capture had been disabled when it started. */
  datatype Call = Call(origin: nat, revision: nat, disables: nat, phase: Phase)

  /** The module-level variables, the page origin, the native state, and the calls. */
  datatype State = State(setting: Option<nat>, revision: nat, switching: nat, enabling: bool, restoring: bool,
                         frontend: nat, session: Option<Session>, disabledByUser: bool,
                         enables: map<nat, Call>, restores: map<nat, Call>, disables: nat)

  datatype Event =
    | StartEnable(enable: nat)
    | Confirmed(enable: nat, allowed: bool)
    | Polled(enable: nat, signedIn: bool)
    | Authorized(enable: nat)
    | ResetDone(enable: nat)
    | EnableFails(enable: nat)
    | Saved(enable: nat)
    | StartRestore(restore: nat)
    | StatusReply(restore: nat, capable: bool)
    | ConnectRuns(owner: Owner)
    | ConnectReply(owner: Owner, ok: bool)
    | Disconnected(owner: Owner)
    | Disable
    | MenuClears
    | BeginSwitch
    | EndSwitch
    | DisconnectAll
    | MoveFrontend(origin: nat)

  // ---------------------------------------------------------------------------------------------
  // Steps
  // ---------------------------------------------------------------------------------------------

  predicate EnableAt(s: State, e: nat, phase: Phase) {
    e in s.enables && s.enables[e].phase == phase
  }

  predicate Known(s: State, owner: Owner) {
    match owner
    case ByEnable(e) => e in s.enables
    case ByRestore(r) => r in s.restores
  }

  function CallOf(s: State, owner: Owner): Call
    requires Known(s, owner)
  {
    match owner
    case ByEnable(e) => s.enables[e]
    case ByRestore(r) => s.restores[r]
  }

  predicate AwaitsConnect(s: State, owner: Owner) {
    Known(s, owner) && CallOf(s, owner).phase.Connecting?
  }

  predicate Enabled(s: State, e: Event) {
    match e
    case StartEnable(i) => i !in s.enables
    case Confirmed(i, _) => EnableAt(s, i, Confirming)
    case Polled(i, _) => EnableAt(s, i, Polling)
    case Authorized(i) => EnableAt(s, i, Authorizing)
    case ResetDone(i) => EnableAt(s, i, Resetting)
    case EnableFails(i) =>
      EnableAt(s, i, Confirming) || EnableAt(s, i, Polling) || EnableAt(s, i, Authorizing) || EnableAt(s, i, Resetting)
    case Saved(i) => EnableAt(s, i, Saving)
    case StartRestore(r) => r !in s.restores
    case StatusReply(r, _) => r in s.restores && s.restores[r].phase.Checking?
    case ConnectRuns(owner) => AwaitsConnect(s, owner) && CallOf(s, owner).phase.connect.NotRun?
    case ConnectReply(owner, ok) =>
      AwaitsConnect(s, owner) && !CallOf(s, owner).phase.connect.NotRun?
      && (ok ==> CallOf(s, owner).phase.connect.Installed?)
    case Disconnected(owner) => Known(s, owner) && CallOf(s, owner).phase.Disconnecting?
    case Disable => true
    case MenuClears => s.disabledByUser
    case BeginSwitch => true
    case EndSwitch => s.switching > 0
    case DisconnectAll => true
    case MoveFrontend(_) => true
  }

  /** `current()` of an enable */
  predicate Current(s: State, call: Call) {
    call.revision == s.revision && s.switching == 0 && call.origin == s.frontend
  }

  /** `wanted()` of a restore */
  predicate Wanted(s: State, origin: nat) {
    s.switching == 0 && s.setting == Some(origin) && origin == s.frontend
  }

  /** Move a call on; its end clears the flag that lets only one of its kind run. */
  function Move(s: State, owner: Owner, phase: Phase): State
    requires Known(s, owner)
  {
    var moved := CallOf(s, owner).(phase := phase);
    match owner
    case ByEnable(e) => s.(enables := s.enables[e := moved], enabling := s.enabling && !phase.Ended?)
    case ByRestore(r) => s.(restores := s.restores[r := moved], restoring := s.restoring && !phase.Ended?)
  }

  /** The native disconnect of one origin. */
  function Drop(s: State, origin: nat): State {
    if s.session.Some? && s.session.value.origin == origin then s.(session := None) else s
  }

  /** reset_approvals without `disabled`: stop everything, allow connecting again. */
  function Reset(s: State, e: nat): State
    requires e in s.enables
  {
    Move(s, ByEnable(e), Resetting).(session := None, disabledByUser := false)
  }

  function Step(s: State, e: Event): State
    requires Enabled(s, e)
  {
    match e
    case StartEnable(i) =>
      if s.switching > 0 || s.enabling || s.setting == Some(s.frontend) then s
      else s.(revision := s.revision + 1, enabling := true,
              enables := s.enables[i := Call(s.frontend, s.revision + 1, s.disables, Confirming)])
    case Confirmed(i, allowed) =>
      Move(s, ByEnable(i), if allowed && Current(s, s.enables[i]) then Polling else Ended(false))
    case Polled(i, signedIn) =>
      if !Current(s, s.enables[i]) then Move(s, ByEnable(i), Ended(false))
      else if !signedIn then Move(s, ByEnable(i), Authorizing) else Reset(s, i)
    case Authorized(i) => if Current(s, s.enables[i]) then Reset(s, i) else Move(s, ByEnable(i), Ended(false))
    case ResetDone(i) => Move(s, ByEnable(i), if Current(s, s.enables[i]) then Connecting(NotRun) else Ended(false))
    case EnableFails(i) => Move(s, ByEnable(i), Ended(false))
    case Saved(i) => Move(s, ByEnable(i), Ended(true))
    case StartRestore(r) =>
      if s.setting.None? || !Wanted(s, s.setting.value) || s.restoring then s
      else s.(restoring := true,
              restores := s.restores[r := Call(s.setting.value, s.revision, s.disables,
                                               Checking(s.session.None? && !s.disabledByUser))])
    case StatusReply(r, capable) =>
      var call := s.restores[r];
      var connects := Wanted(s, call.origin) && call.phase.clear && capable;
      Move(s, ByRestore(r), if connects then Connecting(NotRun) else Ended(false))
    case ConnectRuns(owner) =>
      if s.disabledByUser then Move(s, owner, Connecting(RefusedOff))
      else Move(s, owner, Connecting(Installed)).(session := Some(Session(CallOf(s, owner).origin, owner)))
    case ConnectReply(owner, ok) =>
      var call := CallOf(s, owner);
      var settled := if !ok && s.session.Some? && s.session.value.owner == owner then s.(session := None) else s;
      if owner.ByEnable? then
        if !ok then Move(settled, owner, Ended(false))
        else if Current(s, call) then Move(settled, owner, Saving).(setting := Some(call.origin))
        else Drop(Move(settled, owner, Disconnecting), call.origin)
      else if Wanted(s, call.origin) then Move(settled, owner, Ended(false))
      else Drop(Move(settled, owner, Disconnecting), call.origin)
    case Disconnected(owner) => Move(s, owner, Ended(false))
    case Disable =>
      s.(revision := s.revision + 1, setting := None, session := None, disabledByUser := true,
         disables := s.disables + 1)
    case MenuClears => s.(setting := None)
    case BeginSwitch => s.(switching := s.switching + 1)
    case EndSwitch => s.(switching := s.switching - 1)
    case DisconnectAll => s.(session := None)
    case MoveFrontend(origin) => s.(frontend := origin)
  }

  ghost predicate Initial(s: State) {
    && s.session.None? && s.enables == map[] && s.restores == map[] && !s.enabling && !s.restoring
  }

  ghost predicate IsRun(states: seq<State>, events: seq<Event>) {
    && |states| == |events| + 1 && Initial(states[0])
    && forall i :: 0 <= i < |events| ==> Enabled(states[i], events[i]) && states[i + 1] == Step(states[i], events[i])
  }

  // ---------------------------------------------------------------------------------------------
  // Invariants
  // ---------------------------------------------------------------------------------------------

  /** A call past its native reset knows of every disable, unless capture has been switched off since. */
  ghost predicate SoundEnable(call: Call, revision: nat, disables: nat, off: bool) {
    && call.revision <= revision && call.disables <= disables
    && (call.revision == revision ==> call.disables == disables)
    && !call.phase.Checking?
    && ((call.phase.Resetting? || call.phase.Connecting?) && call.disables != disables ==> off)
  }

  ghost predicate EnablesSound(enables: map<nat, Call>, enabling: bool, revision: nat, disables: nat, off: bool) {
    && (forall e :: e in enables ==> SoundEnable(enables[e], revision, disables, off))
    && (forall e :: e in enables && !enables[e].phase.Ended? ==> enabling)
    && (forall e, f :: e in enables && f in enables && !enables[e].phase.Ended? && !enables[f].phase.Ended? ==> e == f)
  }

  ghost predicate Enables(s: State) {
    EnablesSound(s.enables, s.enabling, s.revision, s.disables, s.disabledByUser)
  }

  /** What the connection's maker is up to. */
  ghost predicate Responsible(owner: Owner, call: Call, disables: nat) {
    match owner
    case ByEnable(_) =>
      call.disables == disables
      && (call.phase == Connecting(Installed) || call.phase.Saving? || call.phase == Ended(true))
    case ByRestore(_) => call.phase == Connecting(Installed) || call.phase.Ended?
  }

  /** A live connection belongs to a call that is still waiting for it, or that ended wanting it. */
  ghost predicate SessionSound(s: State) {
    s.session.Some? ==>
      var owner := s.session.value.owner;
      && !s.disabledByUser && Known(s, owner) && s.session.value.origin == CallOf(s, owner).origin
      && (CallOf(s, owner).phase == Connecting(Installed) || s.setting.Some?)
      && Responsible(owner, CallOf(s, owner), s.disables)
  }

  lemma MoveEnableSound(s: State, e: nat, phase: Phase, off: bool)
    requires Enables(s) && e in s.enables && !s.enables[e].phase.Ended? && !phase.Checking?
    requires (phase.Resetting? || phase.Connecting?) && s.enables[e].disables != s.disables ==> off
    ensures EnablesSound(s.enables[e := s.enables[e].(phase := phase)], s.enabling && !phase.Ended?,
                         s.revision, s.disables, off)
  {
    var enables := s.enables[e := s.enables[e].(phase := phase)];
    assert SoundEnable(s.enables[e], s.revision, s.disables, s.disabledByUser);
    forall f | f in enables ensures SoundEnable(enables[f], s.revision, s.disables, off) {
      if f != e { assert SoundEnable(s.enables[f], s.revision, s.disables, s.disabledByUser); }
    }
  }

  /** One enable moves from a connect or disconnect to `phase`; nothing else about the enables changes. */
  ghost predicate MovesOne(s: State, s': State, owner: Owner, phase: Phase) {
    && s'.revision == s.revision && s'.disables == s.disables && s'.disabledByUser == s.disabledByUser
    && match owner
       case ByRestore(_) => s'.enables == s.enables && s'.enabling == s.enabling
       case ByEnable(i) =>
         && i in s.enables && (s.enables[i].phase.Connecting? || s.enables[i].phase.Disconnecting?)
         && s'.enables == s.enables[i := s.enables[i].(phase := phase)]
         && s'.enabling == (s.enabling && !phase.Ended?)
         && (phase.Connecting? ==> s.enables[i].phase.Connecting?) && !phase.Checking? && !phase.Resetting?
  }

  lemma MoveMovesOne(s: State, owner: Owner, phase: Phase)
    requires Known(s, owner) && (CallOf(s, owner).phase.Connecting? || CallOf(s, owner).phase.Disconnecting?)
    requires (phase.Connecting? ==> CallOf(s, owner).phase.Connecting?) && !phase.Checking? && !phase.Resetting?
    ensures MovesOne(s, Move(s, owner, phase), owner, phase)
  {}

  lemma ConnectMovesOne(s: State, e: Event) returns (phase: Phase)
    requires Enabled(s, e) && (e.ConnectRuns? || e.ConnectReply? || e.Disconnected?)
    ensures MovesOne(s, Step(s, e), e.owner, phase)
  {
    phase := if e.Disconnected? then Ended(false)
             else if e.ConnectRuns? then Connecting(if s.disabledByUser then RefusedOff else Installed)
             else if e.owner.ByEnable? then
               (if !e.ok then Ended(false) else if Current(s, CallOf(s, e.owner)) then Saving else Disconnecting)
             else if Wanted(s, CallOf(s, e.owner).origin) then Ended(false) else Disconnecting;
    MoveMovesOne(s, e.owner, phase);
    if e.ConnectReply? && !e.ok && s.session.Some? && s.session.value.owner == e.owner {
      MoveMovesOne(s.(session := None), e.owner, phase);
    }
  }

  lemma ConnectStepEnables(s: State, e: Event)
    requires Enables(s) && Enabled(s, e) && (e.ConnectRuns? || e.ConnectReply? || e.Disconnected?)
    ensures Enables(Step(s, e))
  {
    hide Step, Enabled;
    var phase := ConnectMovesOne(s, e);
    assert MovesOne(s, Step(s, e), e.owner, phase);
    if e.owner.ByEnable? {
      var i := e.owner.enable;
      assert SoundEnable(s.enables[i], s.revision, s.disables, s.disabledByUser);
      hide EnablesSound;
      MoveEnableSound(s, i, phase, s.disabledByUser);
    }
  }

  lemma ResumeStepEnables(s: State, e: Event)
    requires Enables(s) && Enabled(s, e)
    requires e.Confirmed? || e.Polled? || e.Authorized? || e.ResetDone? || e.EnableFails? || e.Saved?
    ensures Enables(Step(s, e))
  {
    var i := e.enable;
    assert SoundEnable(s.enables[i], s.revision, s.disables, s.disabledByUser);
    var s' := Step(s, e);
    MoveEnableSound(s, i, s'.enables[i].phase, s'.disabledByUser);
  }

  lemma OtherStepEnables(s: State, e: Event)
    requires Enables(s) && Enabled(s, e)
    requires e.StartEnable? || e.StartRestore? || e.StatusReply? || e.Disable? || e.MenuClears? || e.BeginSwitch?
             || e.EndSwitch? || e.DisconnectAll? || e.MoveFrontend?
    ensures Enables(Step(s, e))
  {
    var s' := Step(s, e);
    forall f | f in s'.enables ensures SoundEnable(s'.enables[f], s'.revision, s'.disables, s'.disabledByUser) {
      if f in s.enables { assert SoundEnable(s.enables[f], s.revision, s.disables, s.disabledByUser); }
    }
  }

  lemma EnablesStep(s: State, e: Event)
    requires Enables(s) && Enabled(s, e)
    ensures Enables(Step(s, e))
  {
    hide Enables, Step;
    if e.ConnectRuns? || e.ConnectReply? || e.Disconnected? {
      ConnectStepEnables(s, e);
    } else if e.Confirmed? || e.Polled? || e.Authorized? || e.ResetDone? || e.EnableFails? || e.Saved? {
      ResumeStepEnables(s, e);
    } else {
      OtherStepEnables(s, e);
    }
  }

  lemma ConnectStepSession(s: State, e: Event)
    requires Enables(s) && SessionSound(s) && Enabled(s, e) && (e.ConnectRuns? || e.ConnectReply? || e.Disconnected?)
    ensures SessionSound(Step(s, e))
  {
    if e.owner.ByEnable? {
      assert SoundEnable(s.enables[e.owner.enable], s.revision, s.disables, s.disabledByUser);
    }
  }

  lemma ResumeStepSession(s: State, e: Event)
    requires SessionSound(s) && Enabled(s, e)
    requires e.Confirmed? || e.Polled? || e.Authorized? || e.ResetDone? || e.EnableFails? || e.Saved?
    ensures SessionSound(Step(s, e))
  {}

  lemma OtherStepSession(s: State, e: Event)
    requires SessionSound(s) && Enabled(s, e)
    requires e.StartEnable? || e.StartRestore? || e.StatusReply? || e.Disable? || e.MenuClears? || e.BeginSwitch?
             || e.EndSwitch? || e.DisconnectAll? || e.MoveFrontend?
    ensures SessionSound(Step(s, e))
  {}

  lemma SessionStep(s: State, e: Event)
    requires Enables(s) && SessionSound(s) && Enabled(s, e)
    ensures SessionSound(Step(s, e))
  {
    hide Enables, SessionSound, Step;
    if e.ConnectRuns? || e.ConnectReply? || e.Disconnected? {
      ConnectStepSession(s, e);
    } else if e.Confirmed? || e.Polled? || e.Authorized? || e.ResetDone? || e.EnableFails? || e.Saved? {
      ResumeStepSession(s, e);
    } else {
      OtherStepSession(s, e);
    }
  }

  /** Everything that holds in every reachable state. */
  ghost predicate Sound(s: State) {
    Enables(s) && SessionSound(s)
  }

  lemma StepSound(s: State, e: Event)
    requires Sound(s) && Enabled(s, e)
    ensures Sound(Step(s, e))
  {
    hide Enables, SessionSound, Step, Enabled;
    EnablesStep(s, e);
    SessionStep(s, e);
  }

  lemma {:induction false} RunSound(states: seq<State>, events: seq<Event>, n: nat)
    requires IsRun(states, events) && n < |states|
    ensures Sound(states[n])
    decreases n
  {
    if n > 0 {
      RunSound(states, events, n - 1);
      assert states[n - 1 + 1] == Step(states[n - 1], events[n - 1]);
      StepSound(states[n - 1], events[n - 1]);
    }
  }

  // ---------------------------------------------------------------------------------------------
  // What every schedule guarantees
  // ---------------------------------------------------------------------------------------------

  /** At most one enable is ever under way. */
  lemma OneEnableAtATime(states: seq<State>, events: seq<Event>, n: nat, e: nat, f: nat)
    requires IsRun(states, events) && n < |states| && e in states[n].enables && f in states[n].enables
    requires !states[n].enables[e].phase.Ended? && !states[n].enables[f].phase.Ended?
    ensures e == f
  {
    RunSound(states, events, n);
  }

  /** The enable whose code an event runs. */
  predicate ResumesEnable(ev: Event, e: nat) {
    || ev == Authorized(e) || ev == ResetDone(e) || ev == EnableFails(e) || ev == Saved(e)
    || ev == Disconnected(ByEnable(e)) || (ev.Confirmed? && ev.enable == e) || (ev.Polled? && ev.enable == e)
    || (ev.ConnectReply? && ev.owner == ByEnable(e))
  }

  lemma EnableIsSound(s: State, e: nat)
    requires Enables(s) && e in s.enables
    ensures SoundEnable(s.enables[e], s.revision, s.disables, s.disabledByUser)
  {}

  predicate Overtaken(enables: map<nat, Call>, revision: nat, e: nat) {
    e in enables && enables[e].revision < revision
  }

  /** Moving a call on, or dropping a connection, overtakes nothing and rescues nothing. */
  lemma MoveKeepsOvertaken(s: State, owner: Owner, phase: Phase, e: nat)
    requires Known(s, owner) && Overtaken(s.enables, s.revision, e)
    ensures Overtaken(Move(s, owner, phase).enables, s.revision, e)
  {}

  lemma OvertakenIsStale(s: State, e: nat)
    requires Overtaken(s.enables, s.revision, e)
    ensures e in s.enables && !Current(s, s.enables[e])
  {}

  lemma OvertakenReply(s: State, ev: Event, e: nat)
    requires Enabled(s, ev) && Overtaken(s.enables, s.revision, e) && ev.ConnectReply?
    ensures Overtaken(Step(s, ev).enables, Step(s, ev).revision, e)
    ensures ResumesEnable(ev, e) ==> Step(s, ev).setting == s.setting
  {
    var phase := ReplyMoves(s, ev);
    if ResumesEnable(ev, e) { StaleReply(s, ev, e); }
    hide Step, Overtaken, Enabled, Move;
    MoveKeepsOvertaken(s, ev.owner, phase, e);
  }

  lemma ReplyMoves(s: State, ev: Event) returns (phase: Phase)
    requires Enabled(s, ev) && ev.ConnectReply?
    ensures Known(s, ev.owner) && Step(s, ev).revision == s.revision
    ensures Step(s, ev).enables == Move(s, ev.owner, phase).enables
  {
    var call := CallOf(s, ev.owner);
    var fits := if ev.owner.ByEnable? then Current(s, call) else Wanted(s, call.origin);
    phase := if ev.owner.ByEnable? && !ev.ok then Ended(false)
             else if !fits then Disconnecting
             else if ev.owner.ByEnable? then Saving else Ended(false);
    hide Current, Wanted;
  }

  lemma StaleReply(s: State, ev: Event, e: nat)
    requires Enabled(s, ev) && ev.ConnectReply? && ev.owner == ByEnable(e) && Overtaken(s.enables, s.revision, e)
    ensures Step(s, ev).setting == s.setting
  {
    OvertakenIsStale(s, e);
  }

  lemma OvertakenConnect(s: State, ev: Event, e: nat)
    requires Enabled(s, ev) && Overtaken(s.enables, s.revision, e)
    requires ev.ConnectRuns? || ev.Disconnected?
    ensures Overtaken(Step(s, ev).enables, Step(s, ev).revision, e)
    ensures ResumesEnable(ev, e) ==> Step(s, ev).setting == s.setting
  {}

  lemma OvertakenResume(s: State, ev: Event, e: nat)
    requires Enabled(s, ev) && Overtaken(s.enables, s.revision, e)
    requires ev.Confirmed? || ev.Polled? || ev.Authorized? || ev.ResetDone? || ev.EnableFails? || ev.Saved?
    ensures Overtaken(Step(s, ev).enables, Step(s, ev).revision, e)
    ensures Step(s, ev).setting == s.setting
  {}

  lemma OvertakenOther(s: State, ev: Event, e: nat)
    requires Enabled(s, ev) && Overtaken(s.enables, s.revision, e)
    requires ev.StartEnable? || ev.StartRestore? || ev.StatusReply? || ev.Disable? || ev.MenuClears? || ev.BeginSwitch?
             || ev.EndSwitch? || ev.DisconnectAll? || ev.MoveFrontend?
    ensures Overtaken(Step(s, ev).enables, Step(s, ev).revision, e) && !ResumesEnable(ev, e)
  {}

  lemma OvertakenStays(s: State, ev: Event, e: nat)
    requires Enabled(s, ev) && Overtaken(s.enables, s.revision, e)
    ensures Overtaken(Step(s, ev).enables, Step(s, ev).revision, e)
    ensures ResumesEnable(ev, e) ==> Step(s, ev).setting == s.setting
  {
    hide Step, Overtaken, Enabled;
    if ev.ConnectReply? {
      OvertakenReply(s, ev, e);
    } else if ev.ConnectRuns? || ev.Disconnected? {
      OvertakenConnect(s, ev, e);
    } else if ev.Confirmed? || ev.Polled? || ev.Authorized? || ev.ResetDone? || ev.EnableFails? || ev.Saved? {
      OvertakenResume(s, ev, e);
    } else {
      OvertakenOther(s, ev, e);
    }
  }

  /** An enable overtaken by a disable, or by a later enable, stays overtaken and never touches the setting
      again. */
  lemma {:induction false} OvertakenNeverEnables(states: seq<State>, events: seq<Event>, i: nat, j: nat, e: nat)
    requires IsRun(states, events) && i <= j < |states|
    requires e in states[i].enables && states[i].enables[e].revision != states[i].revision
    ensures Overtaken(states[j].enables, states[j].revision, e)
    ensures j < |events| && ResumesEnable(events[j], e) ==> states[j + 1].setting == states[j].setting
    decreases j
  {
    hide Enables, SessionSound, Step, Enabled;
    if i < j {
      OvertakenNeverEnables(states, events, i, j - 1, e);
      assert states[j - 1 + 1] == Step(states[j - 1], events[j - 1]);
      OvertakenStays(states[j - 1], events[j - 1], e);
    } else {
      RunSound(states, events, i);
      assert SoundEnable(states[i].enables[e], states[i].revision, states[i].disables, states[i].disabledByUser) by {
        EnableIsSound(states[i], e);
      }
    }
    if j < |events| {
      assert states[j + 1] == Step(states[j], events[j]);
      OvertakenStays(states[j], events[j], e);
    }
  }

  /** An enable that ended leaves a native connection of its own only if it turned the setting on and
      capture has not been disabled since it started. */
  lemma OvertakenLeavesNoConnection(states: seq<State>, events: seq<Event>, n: nat, e: nat)
    requires IsRun(states, events) && n < |states| && e in states[n].enables
    requires states[n].enables[e].phase.Ended?
    requires !states[n].enables[e].phase.accepted || states[n].enables[e].disables != states[n].disables
    ensures states[n].session.Some? ==> states[n].session.value.owner != ByEnable(e)
  {
    RunSound(states, events, n);
  }

  /** While the setting is off there is no native connection, except one whose enable or restore has yet to
      hear of it and will then take it down. */
  lemma OffMeansDisconnected(states: seq<State>, events: seq<Event>, n: nat)
    requires IsRun(states, events) && n < |states| && states[n].setting.None? && states[n].session.Some?
    ensures AwaitsConnect(states[n], states[n].session.value.owner)
    ensures var owner, s := states[n].session.value.owner, states[n];
            Enabled(s, ConnectReply(owner, true))
            && (owner.ByRestore? || !Current(s, CallOf(s, owner)) ==> Step(s, ConnectReply(owner, true)).session.None?)
  {
    RunSound(states, events, n);
  }

  /** Capture is off for good: no setting, no connection, and every enable so far overtaken. */
  ghost predicate Off(s: State) {
    && s.setting.None? && s.session.None? && s.disabledByUser
    && forall e :: e in s.enables ==> Overtaken(s.enables, s.revision, e)
  }

  lemma DisableTurnsOff(s: State)
    requires Enables(s)
    ensures Off(Step(s, Disable))
  {
    forall e | e in s.enables ensures s.enables[e].revision <= s.revision { EnableIsSound(s, e); }
  }

  lemma OffStaysConnect(s: State, ev: Event)
    requires Off(s) && Enabled(s, ev) && (ev.ConnectRuns? || ev.ConnectReply? || ev.Disconnected?)
    ensures var s' := Step(s, ev); s'.setting.None? && s'.session.None? && s'.disabledByUser
  {
    if ev.owner.ByEnable? { OvertakenIsStale(s, ev.owner.enable); }
    hide Overtaken;
  }

  lemma OffStaysOther(s: State, ev: Event)
    requires Off(s) && Enabled(s, ev) && !ev.StartEnable? && !ev.ConnectRuns? && !ev.ConnectReply? && !ev.Disconnected?
    ensures var s' := Step(s, ev); s'.setting.None? && s'.session.None? && s'.disabledByUser
  {
    if ev.Polled? || ev.Authorized? { OvertakenIsStale(s, ev.enable); }
    hide Overtaken;
  }

  lemma SameEnablesConnect(s: State, ev: Event)
    requires Enabled(s, ev) && (ev.ConnectRuns? || ev.ConnectReply? || ev.Disconnected?)
    ensures Step(s, ev).enables.Keys == s.enables.Keys
  {
    if ev.owner.ByEnable? { assert ev.owner.enable in s.enables; }
  }

  lemma SameEnablesResume(s: State, ev: Event)
    requires Enabled(s, ev)
    requires ev.Confirmed? || ev.Polled? || ev.Authorized? || ev.ResetDone? || ev.EnableFails? || ev.Saved?
    ensures Step(s, ev).enables.Keys == s.enables.Keys
  {
    assert ev.enable in s.enables;
  }

  /** Only StartEnable adds an enable. */
  lemma SameEnables(s: State, ev: Event)
    requires Enabled(s, ev) && !ev.StartEnable?
    ensures Step(s, ev).enables.Keys == s.enables.Keys
  {
    if ev.ConnectRuns? || ev.ConnectReply? || ev.Disconnected? {
      hide Step;
      SameEnablesConnect(s, ev);
    } else if ev.Confirmed? || ev.Polled? || ev.Authorized? || ev.ResetDone? || ev.EnableFails? || ev.Saved? {
      hide Step;
      SameEnablesResume(s, ev);
    }
  }

  lemma OffStays(s: State, ev: Event)
    requires Off(s) && Enabled(s, ev) && !ev.StartEnable?
    ensures Off(Step(s, ev))
  {
    hide Step, Overtaken, Enabled;
    if ev.ConnectRuns? || ev.ConnectReply? || ev.Disconnected? {
      OffStaysConnect(s, ev);
    } else {
      OffStaysOther(s, ev);
    }
    SameEnables(s, ev);
    forall e | e in Step(s, ev).enables ensures Overtaken(Step(s, ev).enables, Step(s, ev).revision, e) {
      assert e in Step(s, ev).enables.Keys;
      OvertakenStays(s, ev, e);
    }
  }

  /** Once disabled, capture stays off and disconnected until an enable is started anew, whatever enables,
      restores and native connects were under way. */
  lemma {:induction false} DisableLasts(states: seq<State>, events: seq<Event>, i: nat, j: nat)
    requires IsRun(states, events) && i < j < |states| && events[i].Disable?
    requires forall k :: i < k < j ==> !events[k].StartEnable?
    ensures Off(states[j])
    decreases j
  {
    hide Enables, SessionSound, Step, Enabled, Off;
    assert states[j - 1 + 1] == Step(states[j - 1], events[j - 1]) && Enabled(states[j - 1], events[j - 1]);
    if j == i + 1 {
      RunSound(states, events, i);
      DisableTurnsOff(states[i]);
    } else {
      DisableLasts(states, events, i, j - 1);
      OffStays(states[j - 1], events[j - 1]);
    }
  }

  /** What an enable does with the answer of its native connect. */
  lemma EnableReply(s: State, e: nat, ok: bool)
    requires Enabled(s, ConnectReply(ByEnable(e), ok))
    ensures e in s.enables
    ensures var call := s.enables[e];
            var settled := if s.session.Some? && s.session.value.owner == ByEnable(e) then s.(session := None) else s;
            Step(s, ConnectReply(ByEnable(e), ok))
              == if !ok then settled.(enables := s.enables[e := call.(phase := Ended(false))], enabling := false)
                 else if Current(s, call)
                 then s.(enables := s.enables[e := call.(phase := Saving)], setting := Some(call.origin))
                 else Drop(s, call.origin).(enables := s.enables[e := call.(phase := Disconnecting)])
  {
    hide Current;
  }

  /** What a restore does with the answer of its native connect. */
  lemma RestoreReply(s: State, r: nat, ok: bool)
    requires Enabled(s, ConnectReply(ByRestore(r), ok))
    ensures r in s.restores
    ensures var call := s.restores[r];
            var abandoned := !ok && s.session.Some? && s.session.value.owner == ByRestore(r);
            var settled := if abandoned then s.(session := None) else s;
            Step(s, ConnectReply(ByRestore(r), ok))
              == if Wanted(s, call.origin)
                 then settled.(restores := s.restores[r := call.(phase := Ended(false))], restoring := false)
                 else Drop(settled, call.origin).(restores := s.restores[r := call.(phase := Disconnecting)])
  {}

  // ---------------------------------------------------------------------------------------------
  // The shell's variables and functions
  // ---------------------------------------------------------------------------------------------

  class Shell {
    var captureOrigin: Option<nat>
    var captureRevision: nat
    var captureSwitching: nat
    var captureEnabling: bool
    var captureRestoring: bool
    var frontend: nat
    var session: Option<Session>
    var disabledByUser: bool
    var enables: map<nat, Call>
    var restores: map<nat, Call>
    var disables: nat

    ghost function View(): State
      reads this
    {
      State(captureOrigin, captureRevision, captureSwitching, captureEnabling, captureRestoring, frontend, session,
            disabledByUser, enables, restores, disables)
    }

    /** What every schedule keeps; the theorems above say what follows from it. */
    ghost predicate Valid()
      reads this
    {
      Sound(View())
    }

    constructor (origin: Option<nat>, frontend: nat)
      ensures Initial(View()) && captureOrigin == origin && this.frontend == frontend
      ensures Valid()
    {
      captureOrigin, captureRevision, captureSwitching, captureEnabling, captureRestoring := origin, 0, 0, false, false;
      this.frontend := frontend;
      session, disabledByUser, enables, restores, disables := None, false, map[], map[], 0;
    }

    /** enableDesktopCapture, up to its first await. */
    method EnableDesktopCapture(e: nat)
      requires Enabled(View(), StartEnable(e))
      requires Valid()
      modifies this
      ensures Valid()
      ensures View() == Step(old(View()), StartEnable(e))
    {
      hide Sound;
      StepSound(View(), StartEnable(e));
      if captureSwitching > 0 || captureEnabling || captureOrigin == Some(frontend) { return; }
      captureRevision := captureRevision + 1;
      captureEnabling := true;
      enables := enables[e := Call(frontend, captureRevision, disables, Confirming)];
    }

    /** enableDesktopCapture, resumed with the user's answer. */
    method OnConfirmed(e: nat, allowed: bool)
      requires Enabled(View(), Confirmed(e, allowed))
      requires Valid()
      modifies this
      ensures Valid()
      ensures View() == Step(old(View()), Confirmed(e, allowed))
    {
      hide Sound;
      StepSound(View(), Confirmed(e, allowed));
      if !allowed || !IsCurrent(e) { GiveUp(e); return; }
      enables := enables[e := enables[e].(phase := Polling)];
    }

    /** enableDesktopCapture, resumed with the state of the instance's sign-in. */
    method OnSignInKnown(e: nat, signedIn: bool)
      requires Enabled(View(), Polled(e, signedIn))
      requires Valid()
      modifies this
      ensures Valid()
      ensures View() == Step(old(View()), Polled(e, signedIn))
    {
      hide Sound;
      StepSound(View(), Polled(e, signedIn));
      if !IsCurrent(e) { GiveUp(e); return; }
      if !signedIn {
        enables := enables[e := enables[e].(phase := Authorizing)];
      } else {
        NativeReset();
        enables := enables[e := enables[e].(phase := Resetting)];
      }
    }

    /** enableDesktopCapture, resumed after the sign-in. */
    method OnAuthorized(e: nat)
      requires Enabled(View(), Authorized(e))
      requires Valid()
      modifies this
      ensures Valid()
      ensures View() == Step(old(View()), Authorized(e))
    {
      hide Sound;
      StepSound(View(), Authorized(e));
      if !IsCurrent(e) { GiveUp(e); return; }
      NativeReset();
      enables := enables[e := enables[e].(phase := Resetting)];
    }

    /** enableDesktopCapture, resumed after the native reset. */
    method OnReset(e: nat)
      requires Enabled(View(), ResetDone(e))
      requires Valid()
      modifies this
      ensures Valid()
      ensures View() == Step(old(View()), ResetDone(e))
    {
      hide Sound;
      StepSound(View(), ResetDone(e));
      if !IsCurrent(e) { GiveUp(e); return; }
      enables := enables[e := enables[e].(phase := Connecting(NotRun))];
    }

    /** `current()` */
    function IsCurrent(e: nat): bool
      reads this
      requires e in enables
    {
      enables[e].revision == captureRevision && captureSwitching == 0 && enables[e].origin == frontend
    }

    /** Leave enableDesktopCapture: the `finally`. */
    method GiveUp(e: nat)
      requires e in enables
      modifies this`enables, this`captureEnabling
      ensures enables == old(enables)[e := old(enables)[e].(phase := Ended(false))] && !captureEnabling
    {
      enables := enables[e := enables[e].(phase := Ended(false))];
      captureEnabling := false;
    }

    method NativeReset()
      modifies this`session, this`disabledByUser
      ensures session.None? && !disabledByUser
    {
      session := None;
      disabledByUser := false;
    }

    /** disableDesktopCapture and its native command. */
    method DisableDesktopCapture()
      requires Valid()
      modifies this
      ensures Valid()
      ensures View() == Step(old(View()), Disable)
    {
      hide Sound;
      StepSound(View(), Disable);
      captureRevision := captureRevision + 1;
      captureOrigin := None;
      session := None;
      disabledByUser := true;
      disables := disables + 1;
    }

    method NativeDisconnect(origin: nat)
      modifies this`session
      ensures View() == Drop(old(View()), origin)
    {
      if session.Some? && session.value.origin == origin { session := None; }
    }

    /** A failed native connect stops the session it had installed. */
    method NativeAbandon(owner: Owner)
      modifies this`session
      ensures View() == if old(session).Some? && old(session).value.owner == owner
                        then old(View()).(session := None) else old(View())
    {
      if session.Some? && session.value.owner == owner { session := None; }
    }

    /** enableDesktopCapture, resumed with the answer of its native connect. */
    method OnEnableConnected(e: nat, ok: bool)
      requires Enabled(View(), ConnectReply(ByEnable(e), ok))
      requires Valid()
      modifies this
      ensures Valid()
      ensures View() == Step(old(View()), ConnectReply(ByEnable(e), ok))
    {
      hide Sound;
      StepSound(View(), ConnectReply(ByEnable(e), ok));
      var call := enables[e];
      if !ok {
        NativeAbandon(ByEnable(e));
        enables := enables[e := call.(phase := Ended(false))];
        captureEnabling := false;
        return;
      }
      if call.revision != captureRevision || captureSwitching > 0 || call.origin != frontend {
        NativeDisconnect(call.origin);
        enables := enables[e := call.(phase := Disconnecting)];
        return;
      }
      captureOrigin := Some(call.origin);
      enables := enables[e := call.(phase := Saving)];
    }

    /** restoreDesktopCapture, up to its first await. */
    method RestoreDesktopCapture(r: nat)
      requires Enabled(View(), StartRestore(r))
      requires Valid()
      modifies this
      ensures Valid()
      ensures View() == Step(old(View()), StartRestore(r))
    {
      hide Sound;
      StepSound(View(), StartRestore(r));
      if captureOrigin.None? || captureSwitching > 0 || captureOrigin.value != frontend || captureRestoring { return; }
      captureRestoring := true;
      restores := restores[r := Call(captureOrigin.value, captureRevision, disables,
                                     Checking(session.None? && !disabledByUser))];
    }

    /** restoreDesktopCaptureConnection, resumed with the native status. */
    method OnStatus(r: nat, capable: bool)
      requires Enabled(View(), StatusReply(r, capable))
      requires Valid()
      modifies this
      ensures Valid()
      ensures View() == Step(old(View()), StatusReply(r, capable))
    {
      hide Sound;
      StepSound(View(), StatusReply(r, capable));
      var call := restores[r];
      var wanted := captureSwitching == 0 && captureOrigin == Some(call.origin) && call.origin == frontend;
      if wanted && call.phase.clear && capable {
        restores := restores[r := call.(phase := Connecting(NotRun))];
      } else {
        restores := restores[r := call.(phase := Ended(false))];
        captureRestoring := false;
      }
    }

    /** restoreDesktopCaptureConnection, resumed with the answer of its native connect: the `finally`. */
    method OnRestoreConnected(r: nat, ok: bool)
      requires Enabled(View(), ConnectReply(ByRestore(r), ok))
      requires Valid()
      modifies this
      ensures Valid()
      ensures View() == Step(old(View()), ConnectReply(ByRestore(r), ok))
    {
      hide Sound, Step;
      StepSound(View(), ConnectReply(ByRestore(r), ok));
      RestoreReply(View(), r, ok);
      var call := restores[r];
      if !ok { NativeAbandon(ByRestore(r)); }
      if captureSwitching == 0 && captureOrigin == Some(call.origin) && call.origin == frontend {
        restores := restores[r := call.(phase := Ended(false))];
        captureRestoring := false;
      } else {
        NativeDisconnect(call.origin);
        restores := restores[r := call.(phase := Disconnecting)];
      }
    }
  }
}
