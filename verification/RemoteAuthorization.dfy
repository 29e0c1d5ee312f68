/** Signing the desktop in to a remote instance: attempts, cancellations and status polls that interleave
    at every await. One event is the code between two awaits. */
module RemoteAuthorization {
  import opened Wrappers

  datatype Connection = Local | Remote(origin: nat)

  datatype SnapshotState = Authorizing | ReauthRequired | Disconnected | Connected | Unreachable

  /** A snapshot object; the code compares snapshots by identity. */
  datatype Snapshot = Snapshot(serial: nat, state: SnapshotState)

  /** Where authorizeRemoteInstance waits: its first menu update, the native connect, storing the identity
      or its alert, its last menu update, nowhere. */
  datatype Phase = Menu | Connecting | Persisting | Finishing | Done

  datatype Attempt = Attempt(origin: nat, phase: Phase)

  datatype Poll = Poll(origin: nat, before: Option<Snapshot>)

  /** `current` is remoteAuthorizationId and `task` the attempt remoteAuthorizationTask belongs to;
      `cancels` are cancellations whose native call is unanswered. */
  datatype State = State(current: Option<nat>, snapshot: Option<Snapshot>, objects: nat, connection: Connection,
                         localOrigin: nat, task: Option<nat>, attempts: map<nat, Attempt>, cancels: set<nat>,
                         polls: map<nat, Poll>)

  datatype Event =
    | Connect(attempt: nat, origin: nat)
    | MenuShown(attempt: nat)
    | ConnectReply(attempt: nat, state: SnapshotState)
    | Persisted(attempt: nat)
    | Fail(attempt: nat)
    | FinishMenu(attempt: nat)
    | Cancel(cancel: nat)
    | CancelReply(cancel: nat, ok: bool)
    | StartPoll(poll: nat)
    | PollReply(poll: nat, state: SnapshotState)
    | Switch(connection: Connection)
    | MoveLocal(origin: nat)
    | Disconnect

  predicate At(s: State, a: nat, phase: Phase) {
    a in s.attempts && s.attempts[a].phase == phase
  }

  /** The native side never reports the state "authorizing". Disconnect is the answer of a native disconnect,
      which may come after a switch to the local instance. */
  predicate Enabled(s: State, e: Event) {
    match e
    case Connect(a, _) => a !in s.attempts && s.task.None?
    case MenuShown(a) => At(s, a, Menu)
    case ConnectReply(a, state) => At(s, a, Connecting) && !state.Authorizing?
    case Persisted(a) => At(s, a, Persisting)
    case Fail(a) => At(s, a, Menu) || At(s, a, Connecting) || At(s, a, Persisting)
    case FinishMenu(a) => At(s, a, Finishing)
    case Cancel(c) => c !in s.cancels
    case CancelReply(c, _) => c in s.cancels
    case StartPoll(p) =>
      p !in s.polls && s.connection.Remote? && !(s.snapshot.Some? && s.snapshot.value.state.Authorizing?)
    case PollReply(p, state) => p in s.polls && !state.Authorizing?
    case Switch(_) => true
    case MoveLocal(_) => true
    case Disconnect => true
  }

  function FrontendOrigin(s: State): nat {
    if s.connection.Remote? then s.connection.origin else s.localOrigin
  }

  /** The attempt's `current()` */
  predicate Current(s: State, a: nat)
    requires a in s.attempts
  {
    s.current == Some(a) && FrontendOrigin(s) == s.attempts[a].origin
  }

  predicate SelectedRemote(s: State, origin: nat) {
    s.connection == Remote(origin)
  }

  function Put(s: State, state: SnapshotState): State {
    s.(snapshot := Some(Snapshot(s.objects, state)), objects := s.objects + 1)
  }

  predicate ShowsAuthorizing(s: State) {
    s.snapshot.Some? && s.snapshot.value.state.Authorizing?
  }

  function Move(s: State, a: nat, phase: Phase): State
    requires a in s.attempts
  {
    s.(attempts := s.attempts[a := s.attempts[a].(phase := phase)])
  }

  /** The `finally` of an attempt, up to its menu update. */
  function Finally(s: State, a: nat): State
    requires a in s.attempts
  {
    var moved := Move(s, a, Finishing);
    if !Current(s, a) then moved
    else
      var cleared := moved.(current := None);
      if ShowsAuthorizing(s) then Put(cleared, ReauthRequired) else cleared
  }

  function Step(s: State, e: Event): State
    requires Enabled(s, e)
  {
    match e
    case Connect(a, origin) =>
      var begun := s.(current := Some(a), task := Some(a), attempts := s.attempts[a := Attempt(origin, Menu)]);
      if SelectedRemote(s, origin) then Put(begun, Authorizing) else begun
    case MenuShown(a) => if Current(s, a) then Move(s, a, Connecting) else Finally(s, a)
    case ConnectReply(a, state) =>
      if !Current(s, a) then Finally(s, a)
      else if SelectedRemote(s, s.attempts[a].origin) then Put(Move(s, a, Persisting), state)
      else Move(s, a, Persisting)
    case Persisted(a) => Finally(s, a)
    case Fail(a) =>
      if Current(s, a) && SelectedRemote(s, s.attempts[a].origin) then Finally(Put(s, ReauthRequired), a)
      else Finally(s, a)
    case FinishMenu(a) => Move(s, a, Done).(task := if s.task == Some(a) then None else s.task)
    case Cancel(c) =>
      s.(current := None, cancels := if s.current.Some? then s.cancels + {c} else s.cancels)
    case CancelReply(c, ok) =>
      var answered := s.(cancels := s.cancels - {c});
      if ok && ShowsAuthorizing(s) then Put(answered, ReauthRequired) else answered
    case StartPoll(p) => s.(polls := s.polls[p := Poll(s.connection.origin, s.snapshot)])
    case PollReply(p, state) =>
      var poll := s.polls[p];
      var answered := s.(polls := s.polls - {p});
      if SelectedRemote(s, poll.origin) && s.snapshot == poll.before then Put(answered, state) else answered
    case Switch(connection) => s.(connection := connection, snapshot := None)
    case MoveLocal(origin) => s.(localOrigin := origin)
    case Disconnect => Put(s, Disconnected)
  }

  ghost predicate Initial(s: State) {
    s == State(None, None, 0, s.connection, s.localOrigin, None, map[], {}, map[])
  }

  ghost predicate IsRun(states: seq<State>, events: seq<Event>) {
    && |states| == |events| + 1 && Initial(states[0])
    && forall i :: 0 <= i < |events| ==> Enabled(states[i], events[i]) && states[i + 1] == Step(states[i], events[i])
  }

  /** The attempt whose code an event runs, other than its start. */
  function ResumedBy(e: Event): Option<nat> {
    match e
    case MenuShown(a) => Some(a)
    case ConnectReply(a, _) => Some(a)
    case Persisted(a) => Some(a)
    case Fail(a) => Some(a)
    case FinishMenu(a) => Some(a)
    case _ => None
  }

  // ---------------------------------------------------------------------------------------------
  // Invariant
  // ---------------------------------------------------------------------------------------------

  /** An attempt on the selected remote instance is current. */
  predicate SelectedAttempt(s: State) {
    s.current.Some? && s.current.value in s.attempts && SelectedRemote(s, s.attempts[s.current.value].origin)
  }

  /** Attempts run one at a time, snapshot objects are made once, and while "authorizing" shows, a current
      attempt on the selected instance has not had its native answer and no poll started from that snapshot. */
  ghost predicate Sound(s: State) {
    && (forall a :: a in s.attempts && !s.attempts[a].phase.Done? ==> s.task == Some(a))
    && (s.current.Some? ==> s.current.value in s.attempts)
    && (s.snapshot.Some? ==> s.snapshot.value.serial < s.objects)
    && (forall p :: p in s.polls && s.polls[p].before.Some? ==>
          s.polls[p].before.value.serial < s.objects && !s.polls[p].before.value.state.Authorizing?)
    && (ShowsAuthorizing(s) ==> s.connection.Remote?)
    && (ShowsAuthorizing(s) && SelectedAttempt(s) ==>
          s.attempts[s.current.value].phase.Menu? || s.attempts[s.current.value].phase.Connecting?)
  }

  lemma FinallySound(s: State, a: nat)
    requires a in s.attempts && !s.attempts[a].phase.Done? && Sound(s)
    ensures Sound(Finally(s, a))
  {}

  lemma FailSound(s: State, a: nat)
    requires Sound(s) && Enabled(s, Fail(a))
    ensures Sound(Step(s, Fail(a)))
  {
    if Current(s, a) && SelectedRemote(s, s.attempts[a].origin) {
      assert Sound(Put(s, ReauthRequired));
      FinallySound(Put(s, ReauthRequired), a);
    } else {
      FinallySound(s, a);
    }
  }

  lemma AttemptStepSound(s: State, e: Event)
    requires Sound(s) && Enabled(s, e)
             && (e.Connect? || e.MenuShown? || e.ConnectReply? || e.Persisted? || e.FinishMenu?)
    ensures Sound(Step(s, e))
  {
    match e
    case Connect(_, _) =>
    case MenuShown(a) => FinallySound(s, a);
    case ConnectReply(a, _) => FinallySound(s, a);
    case Persisted(a) => FinallySound(s, a);
    case FinishMenu(a) =>
  }

  lemma OtherStepSound(s: State, e: Event)
    requires Sound(s) && Enabled(s, e) && ResumedBy(e).None? && !e.Connect?
    ensures Sound(Step(s, e))
  {}

  lemma StepSound(s: State, e: Event)
    requires Sound(s) && Enabled(s, e)
    ensures Sound(Step(s, e))
  {
    hide Sound, Step;
    if e.Fail? {
      FailSound(s, e.attempt);
    } else if ResumedBy(e).Some? || e.Connect? {
      AttemptStepSound(s, e);
    } else {
      OtherStepSound(s, e);
    }
  }

  lemma {:induction false} RunSound(states: seq<State>, events: seq<Event>, n: nat)
    requires IsRun(states, events) && n < |states|
    ensures Sound(states[n])
    decreases n
  {
    if n > 0 {
      RunSound(states, events, n - 1);
      assert states[n - 1 + 1] == Step(states[n - 1], events[n - 1]);
      StepSound(states[n - 1], events[n - 1]);
    }
  }

  // ---------------------------------------------------------------------------------------------
  // What every schedule guarantees
  // ---------------------------------------------------------------------------------------------

  /** At most one attempt is ever between its start and its end. */
  lemma OneAttemptAtATime(states: seq<State>, events: seq<Event>, n: nat, a: nat, b: nat)
    requires IsRun(states, events) && n < |states| && a in states[n].attempts && b in states[n].attempts
    requires !states[n].attempts[a].phase.Done? && !states[n].attempts[b].phase.Done?
    ensures a == b
  {
    RunSound(states, events, n);
  }

  lemma NotCurrentStays(s: State, e: Event, a: nat)
    requires Enabled(s, e) && a in s.attempts && s.current != Some(a)
    ensures a in Step(s, e).attempts && Step(s, e).current != Some(a)
    ensures ResumedBy(e) == Some(a) ==> Step(s, e).snapshot == s.snapshot
  {}

  /** An attempt that was superseded or cancelled never writes the snapshot again, whatever it is still
      waiting for. */
  lemma {:induction false} SupersededNeverWrites(states: seq<State>, events: seq<Event>, i: nat, j: nat, a: nat)
    requires IsRun(states, events) && i <= j < |states|
    requires a in states[i].attempts && states[i].current != Some(a)
    ensures a in states[j].attempts && states[j].current != Some(a)
    ensures j < |events| && ResumedBy(events[j]) == Some(a) ==> states[j + 1].snapshot == states[j].snapshot
    decreases j
  {
    hide Step, Enabled;
    if i < j {
      SupersededNeverWrites(states, events, i, j - 1, a);
      assert states[j - 1 + 1] == Step(states[j - 1], events[j - 1]);
      NotCurrentStays(states[j - 1], events[j - 1], a);
    }
    if j < |events| {
      assert states[j + 1] == Step(states[j], events[j]);
      NotCurrentStays(states[j], events[j], a);
    }
  }

  /** A snapshot object that was replaced never comes back. */
  lemma ReplacedStays(s: State, e: Event, former: Snapshot)
    requires Enabled(s, e) && s.snapshot != Some(former) && former.serial < s.objects
    ensures Step(s, e).snapshot != Some(former) && former.serial < Step(s, e).objects
  {}

  lemma {:induction false} ReplacedStaysOverRuns(states: seq<State>, events: seq<Event>, k: nat, j: nat,
                                                 former: Snapshot)
    requires IsRun(states, events) && k <= j < |states|
    requires states[k].snapshot != Some(former) && former.serial < states[k].objects
    ensures states[j].snapshot != Some(former)
    ensures former.serial < states[j].objects
    decreases j
  {
    hide Step, Enabled;
    if k < j {
      ReplacedStaysOverRuns(states, events, k, j - 1, former);
      assert states[j - 1 + 1] == Step(states[j - 1], events[j - 1]);
      ReplacedStays(states[j - 1], events[j - 1], former);
    }
  }

  /** Whether the answer of a poll is stored; a stored answer is a new snapshot object. */
  lemma PollReplyWrites(s: State, e: Event)
    requires Sound(s) && Enabled(s, e) && e.PollReply?
    ensures Step(s, e).snapshot != s.snapshot
       <==> SelectedRemote(s, s.polls[e.poll].origin) && s.snapshot == s.polls[e.poll].before
  {}

  /** Only a switch takes the snapshot away. */
  lemma ClearedBySwitch(s: State, e: Event)
    requires Enabled(s, e) && s.snapshot.Some? && Step(s, e).snapshot.None?
    ensures e.Switch?
  {}

  /** If there was a snapshot and there is none, the last event that wrote it was a switch. */
  lemma {:induction false} LastWriteWasSwitch(states: seq<State>, events: seq<Event>, k: nat, j: nat) returns (m: nat)
    requires IsRun(states, events) && k <= j < |states| && states[k].snapshot.Some? && states[j].snapshot.None?
    ensures k <= m < j && events[m].Switch? && forall l :: m < l <= j ==> states[l].snapshot.None?
    decreases j
  {
    hide Step, Enabled;
    assert states[j - 1 + 1] == Step(states[j - 1], events[j - 1]) && Enabled(states[j - 1], events[j - 1]);
    if states[j - 1].snapshot.Some? {
      ClearedBySwitch(states[j - 1], events[j - 1]);
      m := j - 1;
    } else {
      m := LastWriteWasSwitch(states, events, k, j - 1);
    }
  }

  /** A poll under way whose starting snapshot was replaced by the time of `states[k]`. */
  ghost predicate Outdated(states: seq<State>, events: seq<Event>, k: nat, j: nat, p: nat)
    requires |states| == |events| + 1
  {
    && k <= j < |events| && events[j].PollReply? && events[j].poll == p
    && p in states[k].polls && p in states[j].polls && states[j].polls[p] == states[k].polls[p]
    && states[k].snapshot != states[k].polls[p].before
  }

  /** A poll whose starting snapshot was replaced while it was under way still writes exactly when it started
      with no snapshot, there is none again, and its instance is selected. */
  lemma LatePollWrites(states: seq<State>, events: seq<Event>, k: nat, j: nat, p: nat)
    requires IsRun(states, events) && Outdated(states, events, k, j, p)
    ensures states[j + 1].snapshot != states[j].snapshot
       <==> states[k].polls[p].before.None? && states[j].snapshot.None?
            && SelectedRemote(states[j], states[k].polls[p].origin)
  {
    RunSound(states, events, k);
    RunSound(states, events, j);
    assert states[j + 1] == Step(states[j], events[j]);
    PollReplyWrites(states[j], events[j]);
    if states[k].polls[p].before.Some? {
      ReplacedStaysOverRuns(states, events, k, j, states[k].polls[p].before.value);
    }
  }

  /** When it does write, a switch came in between, and nothing was shown since. */
  lemma LatePollFollowsSwitch(states: seq<State>, events: seq<Event>, k: nat, j: nat, p: nat) returns (m: nat)
    requires IsRun(states, events) && Outdated(states, events, k, j, p)
    requires states[j + 1].snapshot != states[j].snapshot
    ensures k <= m < j && events[m].Switch? && forall l :: m < l <= j ==> states[l].snapshot.None?
  {
    LatePollWrites(states, events, k, j, p);
    m := LastWriteWasSwitch(states, events, k, j);
  }

  // ---------------------------------------------------------------------------------------------
  // Who ends "authorizing"
  // ---------------------------------------------------------------------------------------------

  /** Somebody is still responsible for a snapshot that shows "authorizing". */
  predicate Attended(s: State) {
    s.cancels != {} || SelectedAttempt(s)
  }

  predicate Stranded(s: State) {
    ShowsAuthorizing(s) && !Attended(s)
  }

  /** The last unanswered cancellation fails, and no current attempt on the selected instance is left. */
  predicate Strands(s: State, e: Event) {
    e.CancelReply? && !e.ok && s.cancels == {e.cancel} && ShowsAuthorizing(s) && !SelectedAttempt(s)
  }

  /** A new selection, a disconnect, another cancellation or another attempt. */
  predicate Rescues(s: State, e: Event) {
    e.Switch? || e.Disconnect? || (e.Cancel? && s.current.Some?) || (e.Connect? && SelectedRemote(s, e.origin))
  }

  lemma StrandStep(s: State, e: Event)
    requires Sound(s) && Enabled(s, e) && !Stranded(s)
    ensures Stranded(Step(s, e)) <==> Strands(s, e)
  {
    if e.CancelReply? { assert e.cancel in s.cancels; }
  }

  lemma RescueStep(s: State, e: Event)
    requires Sound(s) && Enabled(s, e) && Stranded(s)
    ensures !Stranded(Step(s, e)) <==> Rescues(s, e)
    ensures !Strands(s, e)
  {}

  ghost predicate StrandedSince(states: seq<State>, events: seq<Event>, k: nat, n: nat)
    requires k < n < |states| == |events| + 1
  {
    Strands(states[k], events[k]) && forall m :: k < m < n ==> !Rescues(states[m], events[m])
  }

  lemma FreshIsNotStranded(s: State)
    requires Initial(s)
    ensures !Stranded(s)
  {}

  /** "Authorizing" is stuck exactly when a last cancellation failed with no attempt left on the selected
      instance, and nothing that ends it has happened since. */
  lemma {:induction false} StrandedExactly(states: seq<State>, events: seq<Event>, n: nat)
    requires IsRun(states, events) && n < |states|
    ensures Stranded(states[n]) <==> exists k :: 0 <= k < n && StrandedSince(states, events, k, n)
    decreases n
  {
    hide Step, Enabled, Stranded, Strands, Rescues, Sound;
    if n == 0 {
      FreshIsNotStranded(states[0]);
    } else {
      var s, e := states[n - 1], events[n - 1];
      RunSound(states, events, n - 1);
      StrandedExactly(states, events, n - 1);
      assert states[n - 1 + 1] == Step(s, e) && Enabled(s, e);
      forall k | 0 <= k < n - 1
        ensures StrandedSince(states, events, k, n)
           <==> StrandedSince(states, events, k, n - 1) && !Rescues(s, e)
      {
        assert StrandedSince(states, events, k, n) ==> forall m :: k < m < n - 1 ==> !Rescues(states[m], events[m]);
      }
      assert StrandedSince(states, events, n - 1, n) <==> Strands(s, e);
      if Stranded(s) {
        RescueStep(s, e);
        var k :| 0 <= k < n - 1 && StrandedSince(states, events, k, n - 1);
        assert StrandedSince(states, events, k, n) <==> !Rescues(s, e);
      } else {
        StrandStep(s, e);
      }
    }
  }

  /** While "authorizing" shows, an unanswered cancellation or the current attempt on the selected instance,
      which still waits for its menu or its native answer, will end it, exactly unless it is stuck as above. */
  lemma AuthorizingIsAttended(states: seq<State>, events: seq<Event>, n: nat)
    requires IsRun(states, events) && n < |states| && ShowsAuthorizing(states[n])
    ensures (states[n].cancels != {}
             || exists a :: && states[n].current == Some(a) && a in states[n].attempts && Current(states[n], a)
                            && (states[n].attempts[a].phase.Menu? || states[n].attempts[a].phase.Connecting?))
       <==> !exists k :: 0 <= k < n && StrandedSince(states, events, k, n)
  {
    RunSound(states, events, n);
    StrandedExactly(states, events, n);
    if SelectedAttempt(states[n]) {
      var a := states[n].current.value;
      assert Current(states[n], a);
    }
  }

  // ---------------------------------------------------------------------------------------------
  // What the answer to a cancellation lands on
  // ---------------------------------------------------------------------------------------------

  /** An attempt keeps its origin, and its number is not given again. */
  lemma AttemptStays(s: State, e: Event, a: nat)
    requires Enabled(s, e) && a in s.attempts
    ensures a in Step(s, e).attempts && Step(s, e).attempts[a].origin == s.attempts[a].origin
  {}

  lemma StartedAttempt(s: State, e: Event)
    requires Enabled(s, e) && e.Connect?
    ensures e.attempt in Step(s, e).attempts && Step(s, e).attempts[e.attempt].origin == e.origin
  {}

  lemma {:induction false} StartedHasOrigin(states: seq<State>, events: seq<Event>, k: nat, j: nat)
    requires IsRun(states, events) && k < j < |states| && events[k].Connect?
    ensures events[k].attempt in states[j].attempts && states[j].attempts[events[k].attempt].origin == events[k].origin
    decreases j
  {
    hide Step, Enabled;
    assert states[j - 1 + 1] == Step(states[j - 1], events[j - 1]) && Enabled(states[j - 1], events[j - 1]);
    if k == j - 1 {
      StartedAttempt(states[k], events[k]);
    } else {
      StartedHasOrigin(states, events, k, j - 1);
      AttemptStays(states[j - 1], events[j - 1], events[k].attempt);
    }
  }

  lemma OnlyConnectMakesCurrent(s: State, e: Event)
    requires Enabled(s, e) && Step(s, e).current.Some? && Step(s, e).current != s.current
    ensures e.Connect? && Step(s, e).current == Some(e.attempt)
  {}

  /** Whatever attempt is current after a cancellation was started after it. */
  lemma {:induction false} CurrentStartedAfterCancel(states: seq<State>, events: seq<Event>, i: nat, j: nat)
    returns (k: nat)
    requires IsRun(states, events) && i < j < |states| && events[i].Cancel? && states[j].current.Some?
    ensures i < k < j && events[k].Connect? && states[j].current == Some(events[k].attempt)
    decreases j
  {
    assert states[i + 1] == Step(states[i], events[i]) && states[i + 1].current.None?;
    hide Step, Enabled;
    assert states[j - 1 + 1] == Step(states[j - 1], events[j - 1]) && Enabled(states[j - 1], events[j - 1]);
    if states[j].current != states[j - 1].current {
      OnlyConnectMakesCurrent(states[j - 1], events[j - 1]);
      k := j - 1;
    } else {
      k := CurrentStartedAfterCancel(states, events, i, j - 1);
    }
  }

  /** The snapshot changes while an attempt on the selected instance is current. */
  predicate Overwrites(s: State, e: Event)
    requires Enabled(s, e)
  {
    SelectedAttempt(s) && Step(s, e).snapshot != s.snapshot
  }

  /** The attempt that `start` started is the current one, on the selected instance. */
  predicate CurrentSince(s: State, start: Event) {
    start.Connect? && s.current == Some(start.attempt) && SelectedRemote(s, start.origin)
  }

  lemma CancelReplyWrites(s: State, e: Event)
    requires Sound(s) && Enabled(s, e) && e.CancelReply?
    ensures Step(s, e).snapshot != s.snapshot <==> e.ok && ShowsAuthorizing(s)
  {}

  /** The answer to a cancellation overwrites the snapshot of a current attempt exactly when it reports
      success, that attempt was started on the selected instance after the cancellation, and "authorizing"
      still shows. */
  lemma CancelOverwritesExactly(states: seq<State>, events: seq<Event>, i: nat, j: nat)
    requires IsRun(states, events) && i < j < |events|
    requires events[i].Cancel? && events[j].CancelReply? && events[i].cancel == events[j].cancel
    ensures Overwrites(states[j], events[j])
       <==> events[j].ok && ShowsAuthorizing(states[j])
            && exists k :: i < k < j && CurrentSince(states[j], events[k])
  {
    RunSound(states, events, j);
    CancelReplyWrites(states[j], events[j]);
    hide Step, Enabled, Sound;
    if states[j].current.Some? {
      var k := CurrentStartedAfterCancel(states, events, i, j);
      forall l | i < l < j && CurrentSince(states[j], events[l]) ensures SelectedAttempt(states[j]) {
        StartedHasOrigin(states, events, l, j);
      }
      StartedHasOrigin(states, events, k, j);
      assert SelectedAttempt(states[j]) ==> CurrentSince(states[j], events[k]);
    }
  }

  // ---------------------------------------------------------------------------------------------
  // Three schedules worth knowing
  // ---------------------------------------------------------------------------------------------

  /** A poll that started with no snapshot outlives an attempt and a new selection of the same instance: its
      answer is shown although what it started from was replaced meanwhile. */
  lemma PollOutlivesSwitch(s0: State, origin: nat) returns (states: seq<State>, events: seq<Event>)
    requires Initial(s0) && s0.connection == Remote(origin)
    ensures IsRun(states, events) && states[0] == s0
    ensures Outdated(states, events, 2, 3, 0) && states[4].snapshot != states[3].snapshot
    ensures states[4].snapshot.Some? && states[4].snapshot.value.state.Connected?
  {
    events := [StartPoll(0), Connect(0, origin), Switch(Remote(origin)), PollReply(0, Connected)];
    var s1 := Step(s0, events[0]);
    var s2 := Step(s1, events[1]);
    var s3 := Step(s2, events[2]);
    var s4 := Step(s3, events[3]);
    states := [s0, s1, s2, s3, s4];
  }

  /** A cancellation that the native side fails leaves "authorizing" with no attempt and no cancellation
      left, and polls stay blocked. */
  lemma FailedCancelStrands(s0: State, origin: nat) returns (states: seq<State>, events: seq<Event>)
    requires Initial(s0) && s0.connection == Remote(origin)
    ensures IsRun(states, events) && states[0] == s0
    ensures var last := states[|events|];
            && Stranded(last) && last.current.None? && last.task.None?
            && forall p :: !Enabled(last, StartPoll(p))
  {
    events := [Connect(0, origin), Cancel(0), CancelReply(0, false), MenuShown(0), FinishMenu(0)];
    var s1 := Step(s0, events[0]);
    var s2 := Step(s1, events[1]);
    assert s2 == s1.(current := None, cancels := {0});
    var s3 := Step(s2, events[2]);
    assert s3.cancels == {} && s3.attempts == map[0 := Attempt(origin, Menu)];
    var s4 := Step(s3, events[3]);
    assert s4 == s3.(attempts := map[0 := Attempt(origin, Finishing)]);
    var s5 := Step(s4, events[4]);
    states := [s0, s1, s2, s3, s4, s5];
  }

  /** The answer to an old cancellation also lands on a newer attempt: the shell shows "sign-in required"
      while that attempt is current and under way. */
  lemma LateCancelHidesNewAttempt(s0: State, origin: nat) returns (states: seq<State>, events: seq<Event>)
    requires Initial(s0) && s0.connection == Remote(origin)
    ensures IsRun(states, events) && states[0] == s0
    ensures var last := states[|events|];
            && last.snapshot.Some? && last.snapshot.value.state.ReauthRequired?
            && At(last, 1, Menu) && Current(last, 1)
  {
    states, events := CancelledUnanswered(s0, origin);
    var s4 := states[4];
    var s5 := Step(s4, Connect(1, origin));
    assert s5.current == Some(1) && s5.attempts[1] == Attempt(origin, Menu) && s5.cancels == {0};
    var s6 := Step(s5, CancelReply(0, true));
    assert IsRun(states + [s5, s6], events + [Connect(1, origin), CancelReply(0, true)]) by { hide Step, Enabled; }
    states, events := states + [s5, s6], events + [Connect(1, origin), CancelReply(0, true)];
  }

  /** An attempt is cancelled and gone before the cancellation has its answer. */
  lemma CancelledUnanswered(s0: State, origin: nat) returns (states: seq<State>, events: seq<Event>)
    requires Initial(s0) && s0.connection == Remote(origin)
    ensures IsRun(states, events) && states[0] == s0 && |events| == 4
    ensures states[4] == s0.(snapshot := Some(Snapshot(0, Authorizing)), objects := 1, cancels := {0},
                             attempts := map[0 := Attempt(origin, Done)])
  {
    events := [Connect(0, origin), Cancel(0), MenuShown(0), FinishMenu(0)];
    var s1 := Step(s0, events[0]);
    var s2 := Step(s1, events[1]);
    assert s2 == s1.(current := None, cancels := {0});
    var s3 := Step(s2, events[2]);
    assert s3 == s2.(attempts := map[0 := Attempt(origin, Finishing)]);
    var s4 := Step(s3, events[3]);
    assert s4 == s3.(attempts := map[0 := Attempt(origin, Done)], task := None);
    states := [s0, s1, s2, s3, s4];
  }

  // ---------------------------------------------------------------------------------------------
  // The shell's variables and functions
  // ---------------------------------------------------------------------------------------------

  class Shell {
    var remoteAuthorizationId: Option<nat>
    var remoteSnapshot: Option<Snapshot>
    var objects: nat
    var instanceConnection: Connection
    var localOrigin: nat
    var remoteAuthorizationTask: Option<nat>
    var attempts: map<nat, Attempt>
    var cancels: set<nat>
    var polls: map<nat, Poll>

    ghost function View(): State
      reads this
    {
      State(remoteAuthorizationId, remoteSnapshot, objects, instanceConnection, localOrigin,
            remoteAuthorizationTask, attempts, cancels, polls)
    }

    /** What every schedule keeps; the theorems above say what follows from it. */
    ghost predicate Valid()
      reads this
    {
      Sound(View())
    }

    constructor (connection: Connection, origin: nat)
      ensures Initial(View()) && instanceConnection == connection && localOrigin == origin
      ensures Valid()
    {
      remoteAuthorizationId, remoteSnapshot, objects, remoteAuthorizationTask := None, None, 0, None;
      instanceConnection, localOrigin := connection, origin;
      attempts, cancels, polls := map[], {}, map[];
    }

    method WriteSnapshot(state: SnapshotState)
      modifies this`remoteSnapshot, this`objects
      ensures View() == Put(old(View()), state)
    {
      remoteSnapshot := Some(Snapshot(objects, state));
      objects := objects + 1;
    }

    /** connectDesktopAuthorization: share the attempt under way, or start one. */
    method ConnectDesktopAuthorization(a: nat, origin: nat)
      requires a !in attempts && Valid()
      modifies this
      ensures Valid()
      ensures View() == if old(remoteAuthorizationTask).Some? then old(View())
                        else Step(old(View()), Connect(a, origin))
    {
      if remoteAuthorizationTask.Some? { return; }
      hide Sound;
      StepSound(View(), Connect(a, origin));
      remoteAuthorizationId := Some(a);
      remoteAuthorizationTask := Some(a);
      attempts := attempts[a := Attempt(origin, Menu)];
      if instanceConnection == Remote(origin) { WriteSnapshot(Authorizing); }
    }

    method IsCurrent(a: nat) returns (current: bool)
      requires a in attempts
      ensures current == Current(View(), a)
    {
      var frontend := if instanceConnection.Remote? then instanceConnection.origin else localOrigin;
      return remoteAuthorizationId == Some(a) && frontend == attempts[a].origin;
    }

    method RunFinally(a: nat)
      requires a in attempts
      modifies this
      ensures View() == Finally(old(View()), a)
    {
      var current := IsCurrent(a);
      attempts := attempts[a := attempts[a].(phase := Finishing)];
      if current {
        remoteAuthorizationId := None;
        if remoteSnapshot.Some? && remoteSnapshot.value.state.Authorizing? { WriteSnapshot(ReauthRequired); }
      }
    }

    /** authorizeRemoteInstance, resumed after its first menu update. */
    method OnMenuShown(a: nat)
      requires Enabled(View(), MenuShown(a))
      requires Valid()
      modifies this
      ensures Valid()
      ensures View() == Step(old(View()), MenuShown(a))
    {
      hide Sound;
      StepSound(View(), MenuShown(a));
      var current := IsCurrent(a);
      if !current { RunFinally(a); return; }
      attempts := attempts[a := attempts[a].(phase := Connecting)];
    }

    /** ... with the answer of the native connect. */
    method OnConnected(a: nat, state: SnapshotState)
      requires Enabled(View(), ConnectReply(a, state))
      requires Valid()
      modifies this
      ensures Valid()
      ensures View() == Step(old(View()), ConnectReply(a, state))
    {
      hide Sound;
      StepSound(View(), ConnectReply(a, state));
      var current := IsCurrent(a);
      if !current { RunFinally(a); return; }
      attempts := attempts[a := attempts[a].(phase := Persisting)];
      if instanceConnection == Remote(attempts[a].origin) { WriteSnapshot(state); }
    }

    /** ... with an exception. */
    method OnFailure(a: nat)
      requires Enabled(View(), Fail(a))
      requires Valid()
      modifies this
      ensures Valid()
      ensures View() == Step(old(View()), Fail(a))
    {
      hide Sound;
      StepSound(View(), Fail(a));
      var current := IsCurrent(a);
      if current && instanceConnection == Remote(attempts[a].origin) { WriteSnapshot(ReauthRequired); }
      RunFinally(a);
    }

    /** cancelRemoteAuthorization, up to its first await. */
    method CancelRemoteAuthorization(c: nat)
      requires Enabled(View(), Cancel(c))
      requires Valid()
      modifies this
      ensures Valid()
      ensures View() == Step(old(View()), Cancel(c))
    {
      hide Sound;
      StepSound(View(), Cancel(c));
      if remoteAuthorizationId.Some? { cancels := cancels + {c}; }
      remoteAuthorizationId := None;
    }

    /** ... resumed with the native answer. */
    method OnCancelled(c: nat, ok: bool)
      requires Enabled(View(), CancelReply(c, ok))
      requires Valid()
      modifies this
      ensures Valid()
      ensures View() == Step(old(View()), CancelReply(c, ok))
    {
      hide Sound;
      StepSound(View(), CancelReply(c, ok));
      cancels := cancels - {c};
      if ok && remoteSnapshot.Some? && remoteSnapshot.value.state.Authorizing? { WriteSnapshot(ReauthRequired); }
    }

    /** pollRemoteInstance, resumed with the native answer. */
    method OnPolled(p: nat, state: SnapshotState)
      requires Enabled(View(), PollReply(p, state))
      requires Valid()
      modifies this
      ensures Valid()
      ensures View() == Step(old(View()), PollReply(p, state))
    {
      hide Sound;
      StepSound(View(), PollReply(p, state));
      var poll := polls[p];
      polls := polls - {p};
      if instanceConnection != Remote(poll.origin) || remoteSnapshot != poll.before { return; }
      WriteSnapshot(state);
    }
  }
}
