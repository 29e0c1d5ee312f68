/** Which attempt is the current one, how far it comes and what the shell shows, each by the last event that
    decided it. */
module AuthorizationOutcomes {
  import opened Wrappers
  import opened RemoteAuthorization

  lemma RunStep(states: seq<State>, events: seq<Event>, n: nat)
    requires IsRun(states, events) && 0 < n < |states|
    ensures |states| == |events| + 1 && Sound(states[n - 1])
    ensures Enabled(states[n - 1], events[n - 1]) && states[n] == Step(states[n - 1], events[n - 1])
  {
    RunSound(states, events, n - 1);
    hide Sound, Step, Enabled;
    assert states[n - 1 + 1] == Step(states[n - 1], events[n - 1]);
  }

  lemma RunStart(states: seq<State>, events: seq<Event>)
    requires IsRun(states, events)
    ensures |states| == |events| + 1 && Initial(states[0])
    ensures TaskSound(states[0]) && states[0].snapshot.None? && states[0].current.None?
    ensures states[0].attempts == map[] && states[0].polls == map[]
    ensures forall state :: !Shows(states[0], state)
  {
    hide Step, Enabled;
  }

  predicate IsCurrent(s: State, a: nat) {
    a in s.attempts && Current(s, a)
  }

  // ---------------------------------------------------------------------------------------------
  // What the shell shows
  // ---------------------------------------------------------------------------------------------

  /** The state an event shows: an attempt on the selected instance shows "authorizing" when it starts, and the native
      answer if it is still current; where it or its cancellation ends without an answer, "authorizing" turns into
      "sign-in required"; a poll's answer is shown if nothing came in between. */
  function Shown(s: State, e: Event): Option<SnapshotState> {
    match e
    case Connect(_, origin) => if s.connection == Remote(origin) then Some(Authorizing) else None
    case ConnectReply(a, state) =>
      if IsCurrent(s, a) && s.connection == Remote(s.attempts[a].origin) then Some(state) else None
    case Persisted(a) => if IsCurrent(s, a) && ShowsAuthorizing(s) then Some(ReauthRequired) else None
    case Fail(a) =>
      if IsCurrent(s, a) && (s.connection == Remote(s.attempts[a].origin) || ShowsAuthorizing(s))
      then Some(ReauthRequired) else None
    case CancelReply(_, ok) => if ok && ShowsAuthorizing(s) then Some(ReauthRequired) else None
    case PollReply(p, state) =>
      if p in s.polls && s.connection == Remote(s.polls[p].origin) && s.snapshot == s.polls[p].before
      then Some(state) else None
    case Disconnect => Some(Disconnected)
    case _ => None
  }

  predicate Changes(s: State, e: Event) {
    e.Switch? || Shown(s, e).Some?
  }

  predicate Shows(s: State, state: SnapshotState) {
    s.snapshot.Some? && s.snapshot.value.state == state
  }

  lemma ShownStep(s: State, e: Event, state: SnapshotState)
    requires Enabled(s, e)
    ensures Shows(Step(s, e), state) <==> Shown(s, e) == Some(state) || (Shows(s, state) && !Changes(s, e))
  {}

  ghost predicate ShownSince(states: seq<State>, events: seq<Event>, n: nat, state: SnapshotState, k: nat)
    requires n < |states| == |events| + 1
  {
    k < n && Shown(states[k], events[k]) == Some(state) && forall m :: k < m < n ==> !Changes(states[m], events[m])
  }

  /** Over every run the shell shows a state exactly if the last event that showed or cleared anything showed it. */
  lemma {:induction false} ShownExactly(states: seq<State>, events: seq<Event>, n: nat, state: SnapshotState)
    requires IsRun(states, events) && n < |states|
    ensures |states| == |events| + 1
    ensures Shows(states[n], state) <==> exists k: nat :: ShownSince(states, events, n, state, k)
    decreases n
  {
    hide Step, Enabled, Sound, Shown, Shows, Changes, IsRun, Initial;
    RunStart(states, events);
    if n > 0 {
      RunStep(states, events, n);
      var s, e := states[n - 1], events[n - 1];
      ShownExactly(states, events, n - 1, state);
      ShownStep(s, e, state);
      assert Shown(s, e) == Some(state) ==> ShownSince(states, events, n, state, n - 1);
      if Shows(s, state) && !Changes(s, e) {
        var k: nat :| ShownSince(states, events, n - 1, state, k);
        assert ShownSince(states, events, n, state, k);
      }
      forall k: nat | ShownSince(states, events, n, state, k) && k < n - 1
        ensures ShownSince(states, events, n - 1, state, k) && !Changes(s, e)
      {}
    }
  }

  // ---------------------------------------------------------------------------------------------
  // Which attempt is current
  // ---------------------------------------------------------------------------------------------

  /** A current attempt ends: its identity is stored, or it fails. */
  predicate EndsItself(s: State, e: Event, a: nat) {
    IsCurrent(s, a) && (e == Persisted(a) || e == Fail(a))
  }

  /** Another attempt starts, the user cancels, or the attempt ends as the current one. */
  predicate Replaces(s: State, e: Event, a: nat) {
    (e.Connect? && e.attempt != a) || e.Cancel? || EndsItself(s, e, a)
  }

  lemma CurrentStep(s: State, e: Event, a: nat)
    requires Enabled(s, e)
    ensures Step(s, e).current == Some(a)
       <==> (e.Connect? && e.attempt == a) || (s.current == Some(a) && !Replaces(s, e, a))
  {}

  ghost predicate CurrentSinceStart(states: seq<State>, events: seq<Event>, n: nat, a: nat, k: nat)
    requires n < |states| == |events| + 1
  {
    && k < n && events[k].Connect? && events[k].attempt == a
    && forall m :: k < m < n ==> !Replaces(states[m], events[m], a)
  }

  /** Over every run remoteAuthorizationId is an attempt's exactly if it was started and since then no other attempt
      was, the user did not cancel, and it did not end while it was current. */
  lemma {:induction false} CurrentExactly(states: seq<State>, events: seq<Event>, n: nat, a: nat)
    requires IsRun(states, events) && n < |states|
    ensures |states| == |events| + 1
    ensures states[n].current == Some(a) <==> exists k: nat :: CurrentSinceStart(states, events, n, a, k)
    decreases n
  {
    hide Step, Enabled, Sound, Replaces, IsRun, Initial;
    RunStart(states, events);
    if n > 0 {
      RunStep(states, events, n);
      var s, e := states[n - 1], events[n - 1];
      CurrentExactly(states, events, n - 1, a);
      CurrentStep(s, e, a);
      assert e.Connect? && e.attempt == a ==> CurrentSinceStart(states, events, n, a, n - 1);
      if s.current == Some(a) && !Replaces(s, e, a) {
        var k: nat :| CurrentSinceStart(states, events, n - 1, a, k);
        assert CurrentSinceStart(states, events, n, a, k);
      }
      forall k: nat | CurrentSinceStart(states, events, n, a, k) && k < n - 1
        ensures CurrentSinceStart(states, events, n - 1, a, k) && !Replaces(s, e, a)
      {}
    }
  }

  // ---------------------------------------------------------------------------------------------
  // How far an attempt comes
  // ---------------------------------------------------------------------------------------------

  /** The task that later calls share is the one of the attempt that has not finished. */
  ghost predicate TaskSound(s: State) {
    s.task.Some? ==> s.task.value in s.attempts && !s.attempts[s.task.value].phase.Done?
  }

  lemma TaskStep(s: State, e: Event)
    requires Sound(s) && TaskSound(s) && Enabled(s, e)
    ensures TaskSound(Step(s, e))
  {}

  lemma {:induction false} RunTask(states: seq<State>, events: seq<Event>, n: nat)
    requires IsRun(states, events) && n < |states|
    ensures TaskSound(states[n])
    decreases n
  {
    hide *;
    RunStart(states, events);
    if n > 0 {
      RunStep(states, events, n);
      RunTask(states, events, n - 1);
      TaskStep(states[n - 1], events[n - 1]);
    }
  }

  /** Over every run remoteAuthorizationTask is an attempt's exactly while that attempt has not finished, so a new one
      can be started exactly if none is under way. */
  lemma TaskExactly(states: seq<State>, events: seq<Event>, n: nat, a: nat)
    requires IsRun(states, events) && n < |states|
    ensures states[n].task == Some(a) <==> a in states[n].attempts && !states[n].attempts[a].phase.Done?
    ensures a !in states[n].attempts ==>
              (Enabled(states[n], Connect(a, 0)) <==>
                 forall b :: b in states[n].attempts ==> states[n].attempts[b].phase.Done?)
  {
    RunSound(states, events, n);
    RunTask(states, events, n);
    hide IsRun;
  }

  /** An attempt goes on to its native connect, and from its answer to storing the identity, exactly if it is current
      when it resumes; otherwise it goes to its last menu update, as it does from anywhere when it fails, and then it
      is done. */
  lemma AttemptGoesOn(s: State, e: Event, a: nat)
    requires Enabled(s, e) && a in s.attempts
    ensures a in Step(s, e).attempts
    ensures Step(s, e).attempts[a].phase
         == if e == MenuShown(a) && IsCurrent(s, a) then Connecting
            else if e.ConnectReply? && e.attempt == a && IsCurrent(s, a) then Persisting
            else if e == FinishMenu(a) then Done
            else if ResumedBy(e) == Some(a) then Finishing else s.attempts[a].phase
  {}

  lemma OnlyConnectStarts(s: State, e: Event, a: nat)
    requires Enabled(s, e) && a !in s.attempts
    ensures a in Step(s, e).attempts <==> e.Connect? && e.attempt == a
    ensures a in Step(s, e).attempts ==> Step(s, e).attempts[a].phase.Menu?
  {}

  /** Over every run an attempt waits for its native connect only after its menu update found it current, and for
      storing the identity only after the native answer found it current. */
  lemma {:induction false} WaitsOnlyIfCurrent(states: seq<State>, events: seq<Event>, n: nat, a: nat)
    requires IsRun(states, events) && n < |states| && a in states[n].attempts
    ensures |states| == |events| + 1
    ensures states[n].attempts[a].phase.Connecting? ==>
              exists k :: 0 <= k < n && events[k] == MenuShown(a) && IsCurrent(states[k], a)
    ensures states[n].attempts[a].phase.Persisting? ==>
              exists k :: 0 <= k < n && events[k].ConnectReply? && events[k].attempt == a && IsCurrent(states[k], a)
    decreases n
  {
    hide Step, Enabled, Sound, IsCurrent, IsRun, Initial;
    RunStart(states, events);
    RunStep(states, events, n);
    var s, e := states[n - 1], events[n - 1];
    if a in s.attempts {
      AttemptGoesOn(s, e, a);
      WaitsOnlyIfCurrent(states, events, n - 1, a);
    } else {
      OnlyConnectStarts(s, e, a);
    }
  }

  // ---------------------------------------------------------------------------------------------
  // What a poll remembers
  // ---------------------------------------------------------------------------------------------

  lemma PollStep(s: State, e: Event, p: nat)
    requires Enabled(s, e) && p in Step(s, e).polls
    ensures (p in s.polls && Step(s, e).polls[p] == s.polls[p])
            || (e == StartPoll(p) && s.connection == Remote(Step(s, e).polls[p].origin)
                && s.snapshot == Step(s, e).polls[p].before)
  {}

  /** A poll under way remembers the instance and the snapshot object there were when it started. */
  lemma {:induction false} PollRemembers(states: seq<State>, events: seq<Event>, n: nat, p: nat) returns (k: nat)
    requires IsRun(states, events) && n < |states| && p in states[n].polls
    ensures k < n && |states| == |events| + 1 && events[k] == StartPoll(p)
    ensures states[k].connection == Remote(states[n].polls[p].origin) && states[k].snapshot == states[n].polls[p].before
    decreases n
  {
    hide Step, Enabled, Sound, IsRun, Initial;
    RunStart(states, events);
    RunStep(states, events, n);
    PollStep(states[n - 1], events[n - 1], p);
    if p in states[n - 1].polls && states[n].polls[p] == states[n - 1].polls[p] {
      k := PollRemembers(states, events, n - 1, p);
    } else {
      k := n - 1;
    }
  }
}
