/** The desktop shell's client for the headless runner: request/response correlation and bounded shutdown.
    One event is one callback of the event loop together with the microtasks it releases. */
module RunnerClient {

  datatype Outcome = Resolved | Rejected

  datatype Settlement = Settlement(id: nat, outcome: Outcome)

  /** A runner frame as far as handleFrame tells them apart; `id` is the number in "tray-N". */
  datatype Frame = Ignored | StateFrame | ProgressFrame | Response(id: nat, success: bool)

  /** Where the `graceful` part of one shutdown call stands. */
  datatype Graceful = Probing | Sending | AwaitingExit | Over

  /** The call itself: racing, awaiting its kill, or settled. */
  datatype Outer = Racing | Killing | Completed(ok: bool)

  /** One shutdown call. `finished`, `didExit` and `timer` are its variables; the rest is history: whether
      the runner was reported not alive, whether the deadline was handled, how often quit was sent and
      kill called, and whether a quit went out after the deadline or the exit. */
  datatype Shutdown = Shutdown(graceful: Graceful, outer: Outer, finished: bool, didExit: bool, timer: bool,
                               notAlive: bool, timedOut: bool, quits: nat, kills: nat, lateQuit: bool)

  /** `sends` are the requests whose stdin write has not been answered. `settled` and `lines` are history:
      every call of a promise's resolve or reject, and the id of every line written. */
  datatype State = State(pending: set<nat>, timers: set<nat>, sequence: nat, exitWaiters: set<nat>,
                         sends: set<nat>, shutdowns: map<nat, Shutdown>,
                         settled: multiset<Settlement>, lines: seq<nat>, requests: set<nat>)

  datatype Event =
    | Request
    | SendFailed(id: nat)
    | SendDone(id: nat)
    | Timeout(id: nat)
    | FrameArrived(frame: Frame)
    | RunnerExit
    | CallShutdown(call: nat)
    | AliveReply(call: nat, alive: bool)
    | AliveFailed(call: nat)
    | QuitSent(call: nat)
    | QuitFailed(call: nat)
    | Deadline(call: nat)
    | KillReply(call: nat, ok: bool)

  // ---------------------------------------------------------------------------------------------
  // Steps
  // ---------------------------------------------------------------------------------------------

  predicate InCall(s: State, call: nat, graceful: Graceful) {
    call in s.shutdowns && s.shutdowns[call].graceful == graceful
  }

  /** What the environment may do next. */
  predicate Enabled(s: State, e: Event) {
    match e
    case Request => true
    case SendFailed(id) => id in s.sends
    case SendDone(id) => id in s.sends
    case Timeout(id) => id in s.timers
    case FrameArrived(_) => true
    case RunnerExit => true
    case CallShutdown(call) => call !in s.shutdowns
    case AliveReply(call, _) => InCall(s, call, Probing)
    case AliveFailed(call) => InCall(s, call, Probing)
    case QuitSent(call) => InCall(s, call, Sending)
    case QuitFailed(call) => InCall(s, call, Sending)
    case Deadline(call) => call in s.shutdowns && s.shutdowns[call].timer
    case KillReply(call, _) => call in s.shutdowns && s.shutdowns[call].outer.Killing?
  }

  /** A pending entry is dropped, its timer cleared and its promise settled. */
  function Settle(s: State, id: nat, outcome: Outcome): State {
    s.(pending := s.pending - {id}, timers := s.timers - {id}, settled := s.settled + multiset{Settlement(id, outcome)})
  }

  /** The `finally` of shutdown. */
  function Complete(call: Shutdown, ok: bool): Shutdown {
    call.(outer := Completed(ok), finished := true, timer := false)
  }

  /** The `catch` of shutdown, up to its kill. */
  function Kill(call: Shutdown): Shutdown {
    call.(outer := Killing, finished := true, kills := call.kills + 1)
  }

  /** The exit waiter of a call. */
  function SeeExit(call: Shutdown): Shutdown {
    var seen := call.(didExit := true, graceful := if call.graceful.Probing? then Probing else Over);
    if call.outer.Racing? then Complete(seen, true) else seen
  }

  /** `graceful` rejects. */
  function GracefulThrows(call: Shutdown): Shutdown {
    var over := call.(graceful := Over);
    if call.outer.Racing? then Kill(over) else over
  }

  function SetCall(s: State, id: nat, call: Shutdown): State {
    s.(shutdowns := s.shutdowns[id := call],
       exitWaiters := if call.outer.Completed? then s.exitWaiters - {id} else s.exitWaiters)
  }

  function Step(s: State, e: Event): State
    requires Enabled(s, e)
  {
    match e
    case Request =>
      var id := s.sequence + 1;
      s.(sequence := id, pending := s.pending + {id}, timers := s.timers + {id}, sends := s.sends + {id},
         lines := s.lines + [id], requests := s.requests + {id})
    case SendFailed(id) =>
      var s' := s.(sends := s.sends - {id});
      if id in s.pending then Settle(s', id, Rejected) else s'
    case SendDone(id) => s.(sends := s.sends - {id})
    case Timeout(id) => Settle(s, id, Rejected)
    case FrameArrived(frame) =>
      if frame.Response? && frame.id in s.pending
      then Settle(s, frame.id, if frame.success then Resolved else Rejected) else s
    case RunnerExit =>
      s.(pending := {}, timers := s.timers - s.pending, exitWaiters := {},
         settled := s.settled + multiset(set id | id in s.pending :: Settlement(id, Rejected)),
         shutdowns := map c | c in s.shutdowns ::
           if c in s.exitWaiters then SeeExit(s.shutdowns[c]) else s.shutdowns[c])
    case CallShutdown(call) =>
      s.(exitWaiters := s.exitWaiters + {call},
         shutdowns := s.shutdowns[call := Shutdown(Probing, Racing, false, false, true, false, false, 0, 0, false)])
    case AliveReply(c, alive) =>
      var call := s.shutdowns[c].(notAlive := s.shutdowns[c].notAlive || !alive);
      if !alive || call.finished || call.didExit then
        var over := call.(graceful := Over);
        SetCall(s, c, if over.outer.Racing? then Complete(over, true) else over)
      else
        SetCall(s.(sequence := s.sequence + 1, lines := s.lines + [s.sequence + 1]), c,
                call.(graceful := Sending, quits := call.quits + 1,
                      lateQuit := call.lateQuit || call.timedOut || call.didExit))
    case AliveFailed(c) => SetCall(s, c, GracefulThrows(s.shutdowns[c]))
    case QuitSent(c) => SetCall(s, c, s.shutdowns[c].(graceful := AwaitingExit))
    case QuitFailed(c) => SetCall(s, c, GracefulThrows(s.shutdowns[c]))
    case Deadline(c) =>
      var call := s.shutdowns[c].(timer := false, timedOut := true);
      SetCall(s, c, if call.outer.Racing? then Kill(call) else call)
    case KillReply(c, ok) => SetCall(s, c, Complete(s.shutdowns[c], ok))
  }

  const INITIAL := State({}, {}, 0, {}, {}, map[], multiset{}, [], {})

  ghost predicate IsRun(states: seq<State>, events: seq<Event>) {
    && |states| == |events| + 1 && states[0] == INITIAL
    && forall i :: 0 <= i < |events| ==> Enabled(states[i], events[i]) && states[i + 1] == Step(states[i], events[i])
  }

  // ---------------------------------------------------------------------------------------------
  // Requests
  // ---------------------------------------------------------------------------------------------

  ghost function Settlements(s: State, id: nat): nat {
    s.settled[Settlement(id, Resolved)] + s.settled[Settlement(id, Rejected)]
  }

  /** Pending entries and live timers are exactly the unsettled requests; no promise is settled twice. */
  ghost predicate RequestsSound(s: State) {
    && s.pending == s.timers && s.pending <= s.requests
    && (forall id :: Settlements(s, id) == if id in s.requests && id !in s.pending then 1 else 0)
    && (forall id :: id in s.requests ==> id <= s.sequence)
  }

  /** Every number taken is written on one line, in order. */
  ghost predicate LinesSound(s: State) {
    && |s.lines| == s.sequence && (forall i :: 0 <= i < |s.lines| ==> s.lines[i] == i + 1)
    && (forall id :: id in s.requests ==> id > 0)
  }

  lemma ExitSettlesAll(s: State)
    requires RequestsSound(s)
    ensures RequestsSound(Step(s, RunnerExit))
  {
    var rejected := set id | id in s.pending :: Settlement(id, Rejected);
    forall id
      ensures Settlements(Step(s, RunnerExit), id) == if id in s.requests then 1 else 0
    {
      assert Settlement(id, Rejected) in rejected <==> id in s.pending;
      assert multiset(rejected)[Settlement(id, Resolved)] == 0;
    }
  }

  /** An event of one shutdown call; it changes that call alone. */
  predicate OfCall(e: Event) {
    e.AliveReply? || e.AliveFailed? || e.QuitSent? || e.QuitFailed? || e.Deadline? || e.KillReply?
  }

  lemma CallKeepsRequests(s: State, e: Event)
    requires Enabled(s, e) && OfCall(e)
    ensures var s' := Step(s, e);
            && s'.pending == s.pending && s'.timers == s.timers && s'.settled == s.settled && s'.requests == s.requests
            && ((s'.sequence == s.sequence && s'.lines == s.lines)
                || (s'.sequence == s.sequence + 1 && s'.lines == s.lines + [s'.sequence]))
  {}

  lemma RequestsStep(s: State, e: Event)
    requires RequestsSound(s) && LinesSound(s) && Enabled(s, e)
    ensures RequestsSound(Step(s, e)) && LinesSound(Step(s, e))
  {
    if OfCall(e) {
      hide Step;
      CallKeepsRequests(s, e);
    } else if e.RunnerExit? {
      ExitSettlesAll(s);
      hide RequestsSound;
    } else {
      RequestKeepsCount(s, e);
    }
  }

  lemma RequestKeepsCount(s: State, e: Event)
    requires RequestsSound(s) && LinesSound(s) && Enabled(s, e) && !OfCall(e) && !e.RunnerExit?
    ensures RequestsSound(Step(s, e)) && LinesSound(Step(s, e))
  {
    if e.Request? {
      NewRequest(s);
      hide Step;
    } else {
      hide Complete, Kill, SetCall, GracefulThrows, SeeExit, LinesSound;
      OthersWriteNothing(s, e);
    }
  }

  lemma OthersWriteNothing(s: State, e: Event)
    requires LinesSound(s) && Enabled(s, e) && !OfCall(e) && !e.RunnerExit? && !e.Request?
    ensures LinesSound(Step(s, e))
  {
    hide Complete, Kill, SetCall, GracefulThrows, SeeExit;
  }

  lemma NewRequest(s: State)
    requires RequestsSound(s) && LinesSound(s)
    ensures RequestsSound(Step(s, Request)) && LinesSound(Step(s, Request))
  {}

  // ---------------------------------------------------------------------------------------------
  // Shutdown
  // ---------------------------------------------------------------------------------------------

  /** What holds of one shutdown call; `waiting` says whether its exit waiter is still registered. */
  ghost predicate CallSound(call: Shutdown, waiting: bool) {
    && (waiting <==> !call.didExit && !call.outer.Completed?)
    && (call.outer.Racing? ==> call.timer && !call.finished && !call.didExit && !call.timedOut && !call.graceful.Over?)
    && (call.outer.Killing? ==> call.kills == 1 && call.finished)
    && (call.outer.Completed? ==> call.finished && !call.timer && (call.didExit || call.notAlive || call.kills == 1))
    && (call.outer.Completed? && !call.outer.ok ==> call.kills == 1)
    && (call.outer.Racing? ==> call.kills == 0) && call.kills <= 1
    && !call.lateQuit
    && call.quits <= 1 && (call.graceful.Probing? ==> call.quits == 0)
    && (call.timedOut ==> call.kills == 1)
  }

  ghost predicate ShutdownsSound(s: State) {
    && s.exitWaiters <= s.shutdowns.Keys
    && forall c :: c in s.shutdowns ==> CallSound(s.shutdowns[c], c in s.exitWaiters)
  }

  lemma CallStep(s: State, e: Event)
    requires Enabled(s, e) && OfCall(e) && e.call in s.shutdowns
             && CallSound(s.shutdowns[e.call], e.call in s.exitWaiters)
    ensures e.call in Step(s, e).shutdowns
    ensures CallSound(Step(s, e).shutdowns[e.call], e.call in Step(s, e).exitWaiters)
  {}

  lemma OtherCallsStay(s: State, e: Event, c: nat)
    requires Enabled(s, e) && OfCall(e) && c != e.call
    ensures c in Step(s, e).shutdowns <==> c in s.shutdowns
    ensures c in s.shutdowns ==> Step(s, e).shutdowns[c] == s.shutdowns[c]
    ensures c in Step(s, e).exitWaiters <==> c in s.exitWaiters
  {}

  lemma CallEventStep(s: State, e: Event)
    requires ShutdownsSound(s) && Enabled(s, e) && OfCall(e) && e.call in s.shutdowns
    ensures ShutdownsSound(Step(s, e))
  {
    hide Step, CallSound, Enabled;
    var s' := Step(s, e);
    CallStep(s, e);
    forall c | c in s'.shutdowns ensures CallSound(s'.shutdowns[c], c in s'.exitWaiters) {
      if c != e.call { OtherCallsStay(s, e, c); }
    }
    forall c | c in s'.exitWaiters ensures c in s'.shutdowns {
      if c != e.call { OtherCallsStay(s, e, c); }
    }
  }

  lemma ShutdownsStep(s: State, e: Event)
    requires ShutdownsSound(s) && Enabled(s, e)
    ensures ShutdownsSound(Step(s, e))
  {
    hide ShutdownsSound, Step;
    if OfCall(e) { CallEventStep(s, e); } else { OtherEventStep(s, e); }
  }

  lemma OtherEventStep(s: State, e: Event)
    requires ShutdownsSound(s) && Enabled(s, e) && !OfCall(e)
    ensures ShutdownsSound(Step(s, e))
  {
    var s' := Step(s, e);
    forall c | c in s'.shutdowns ensures CallSound(s'.shutdowns[c], c in s'.exitWaiters) {
      if c in s.shutdowns { assert CallSound(s.shutdowns[c], c in s.exitWaiters); }
    }
  }

  /** Everything that holds in every reachable state. */
  ghost predicate Sound(s: State) {
    RequestsSound(s) && LinesSound(s) && ShutdownsSound(s)
  }

  lemma StepSound(s: State, e: Event)
    requires Sound(s) && Enabled(s, e)
    ensures Sound(Step(s, e))
  {
    hide RequestsSound, LinesSound, ShutdownsSound, Step, Enabled;
    RequestsStep(s, e);
    ShutdownsStep(s, e);
  }

  lemma {:induction false} RunSound(states: seq<State>, events: seq<Event>, n: nat)
    requires IsRun(states, events) && n < |states|
    ensures Sound(states[n])
    decreases n
  {
    if n > 0 {
      RunSound(states, events, n - 1);
      assert states[n - 1 + 1] == Step(states[n - 1], events[n - 1]);
      StepSound(states[n - 1], events[n - 1]);
    }
  }

  // ---------------------------------------------------------------------------------------------
  // What every schedule guarantees
  // ---------------------------------------------------------------------------------------------

  /** On every schedule each request's promise is settled at most once, exactly the unsettled requests are
      pending with a live timer, every request is written, and no number is written on two lines. */
  lemma RequestsSettleOnce(states: seq<State>, events: seq<Event>, n: nat, id: nat)
    requires IsRun(states, events) && n < |states|
    ensures var s := states[n];
            && Settlements(s, id) <= 1
            && (id in s.pending <==> id in s.requests && Settlements(s, id) == 0)
            && (id in s.timers <==> id in s.pending) && (id in s.requests ==> id in s.lines)
            && forall i, j :: 0 <= i < j < |s.lines| ==> s.lines[i] != s.lines[j]
  {
    RunSound(states, events, n);
    if id in states[n].requests { assert states[n].lines[id - 1] == id; }
  }

  /** When the runner exits, every request is settled, no timer is left and no shutdown waits for an exit. */
  lemma ExitLeavesNothing(states: seq<State>, events: seq<Event>, n: nat)
    requires IsRun(states, events) && n < |events| && events[n].RunnerExit?
    ensures var s := states[n + 1];
            && s.pending == {} && s.timers == {} && s.exitWaiters == {}
            && (forall id :: id in s.requests ==> Settlements(s, id) == 1)
            && forall c :: c in s.shutdowns ==> !s.shutdowns[c].outer.Racing?
  {
    RunSound(states, events, n);
    RunSound(states, events, n + 1);
    var s := states[n + 1];
    forall c | c in s.shutdowns ensures !s.shutdowns[c].outer.Racing? {
      assert CallSound(s.shutdowns[c], c in s.exitWaiters);
    }
  }

  /** On every schedule a shutdown settles only after its runner's exit was seen, the runner was reported
      not alive, or kill was called, and fails only with its kill; it leaves no waiter and no timer, kills
      and quits at most once, never quits after its deadline or the exit, and is never stuck: while it
      races its deadline is still to come. */
  lemma ShutdownGuarantees(states: seq<State>, events: seq<Event>, n: nat, c: nat)
    requires IsRun(states, events) && n < |states| && c in states[n].shutdowns
    ensures var s, call := states[n], states[n].shutdowns[c];
            && (call.outer.Completed? ==> call.didExit || call.notAlive || call.kills == 1)
            && (call.outer.Completed? && !call.outer.ok ==> call.kills == 1)
            && (call.outer.Completed? ==> c !in s.exitWaiters && !call.timer)
            && call.kills <= 1 && call.quits <= 1 && !call.lateQuit
            && (call.outer.Racing? ==> Enabled(s, Deadline(c)))
            && (call.outer.Killing? ==> Enabled(s, KillReply(c, true)))
  {
    RunSound(states, events, n);
    assert CallSound(states[n].shutdowns[c], c in states[n].exitWaiters);
  }

  /** Once its deadline was handled or the exit seen, a call writes nothing more, whatever comes late. */
  lemma NoLateQuit(states: seq<State>, events: seq<Event>, n: nat, c: nat)
    requires IsRun(states, events) && n < |events| && c in states[n].shutdowns
    requires states[n].shutdowns[c].timedOut || states[n].shutdowns[c].didExit
             || states[n].shutdowns[c].outer.Completed?
    requires events[n].AliveReply? && events[n].call == c
    ensures states[n + 1].lines == states[n].lines
  {
    RunSound(states, events, n);
    assert CallSound(states[n].shutdowns[c], c in states[n].exitWaiters);
  }

  // ---------------------------------------------------------------------------------------------
  // Which way everything settles
  // ---------------------------------------------------------------------------------------------

  /** The event settles the request that way: a successful answer resolves it; a failed answer, its timeout, a
      failed write or the runner's exit rejects it. */
  predicate SettlesAt(s: State, e: Event, id: nat, outcome: Outcome) {
    && id in s.pending
    && match outcome
       case Resolved => e == FrameArrived(Response(id, true))
       case Rejected =>
         e == FrameArrived(Response(id, false)) || e == Timeout(id) || e == SendFailed(id) || e.RunnerExit?
  }

  lemma ExitRejects(s: State, id: nat, outcome: Outcome)
    ensures Settlement(id, outcome) in Step(s, RunnerExit).settled
       <==> Settlement(id, outcome) in s.settled || (id in s.pending && outcome.Rejected?)
  {
    var rejected := set i | i in s.pending :: Settlement(i, Rejected);
    assert Settlement(id, outcome) in multiset(rejected) <==> Settlement(id, outcome) in rejected;
  }

  lemma SettlementStep(s: State, e: Event, id: nat, outcome: Outcome)
    requires RequestsSound(s) && Enabled(s, e)
    ensures Settlement(id, outcome) in Step(s, e).settled
       <==> Settlement(id, outcome) in s.settled || SettlesAt(s, e, id, outcome)
  {
    if e.RunnerExit? {
      ExitRejects(s, id, outcome);
      hide Step;
    } else if OfCall(e) {
      CallKeepsRequests(s, e);
      hide Step;
    } else {
      RequestSettles(s, e, id, outcome);
      hide Step;
    }
  }

  lemma RequestSettles(s: State, e: Event, id: nat, outcome: Outcome)
    requires RequestsSound(s) && Enabled(s, e) && !OfCall(e) && !e.RunnerExit?
    ensures Settlement(id, outcome) in Step(s, e).settled
       <==> Settlement(id, outcome) in s.settled || SettlesAt(s, e, id, outcome)
  {
    hide Settlements, Complete, Kill, SetCall, GracefulThrows, SeeExit;
  }

  lemma RunStep(states: seq<State>, events: seq<Event>, n: nat)
    requires IsRun(states, events) && 0 < n < |states|
    ensures |states| == |events| + 1 && Sound(states[n - 1])
    ensures Enabled(states[n - 1], events[n - 1]) && states[n] == Step(states[n - 1], events[n - 1])
  {
    RunSound(states, events, n - 1);
    hide Sound, Step, Enabled;
    assert states[n - 1 + 1] == Step(states[n - 1], events[n - 1]);
  }

  /** On every schedule a request is resolved exactly if a successful answer came while it was pending, and
      rejected exactly if a failed answer, its timeout, a failed write or the runner's exit did. */
  lemma {:induction false} SettledExactly(states: seq<State>, events: seq<Event>, n: nat, id: nat, outcome: Outcome)
    requires IsRun(states, events) && n < |states|
    ensures Settlement(id, outcome) in states[n].settled
       <==> exists k :: 0 <= k < n && SettlesAt(states[k], events[k], id, outcome)
    decreases n
  {
    if n > 0 {
      RunStep(states, events, n);
      hide Step, Enabled, IsRun, SettlesAt, RequestsSound, LinesSound, ShutdownsSound;
      SettledExactly(states, events, n - 1, id, outcome);
      SettlementStep(states[n - 1], events[n - 1], id, outcome);
    }
  }

  predicate IsRacing(s: State, c: nat) {
    c in s.shutdowns && s.shutdowns[c].outer.Racing?
  }

  /** The event completes the shutdown that way: the answer to its kill, or, while it still races, the runner's
      exit or the report that the runner is not alive. */
  predicate CompletesAt(s: State, e: Event, c: nat, ok: bool) {
    e == KillReply(c, ok) || (ok && IsRacing(s, c) && (e.RunnerExit? || e == AliveReply(c, false)))
  }

  /** The event makes the shutdown kill the runner: its deadline, or a failing probe or quit, while it races. */
  predicate KillsAt(s: State, e: Event, c: nat) {
    IsRacing(s, c) && (e == Deadline(c) || e == AliveFailed(c) || e == QuitFailed(c))
  }

  ghost predicate CompletedAs(s: State, c: nat, ok: bool) {
    c in s.shutdowns && s.shutdowns[c].outer == Completed(ok)
  }

  ghost predicate Killed(s: State, c: nat) {
    c in s.shutdowns && s.shutdowns[c].kills > 0
  }

  lemma OwnOutcomeStep(s: State, e: Event, c: nat, ok: bool)
    requires Enabled(s, e) && OfCall(e) && e.call == c && c in s.shutdowns
             && CallSound(s.shutdowns[c], c in s.exitWaiters)
    ensures CompletedAs(Step(s, e), c, ok) <==> CompletedAs(s, c, ok) || CompletesAt(s, e, c, ok)
    ensures Killed(Step(s, e), c) <==> Killed(s, c) || KillsAt(s, e, c)
  {}

  /** Requests and their answers leave the shutdowns alone. */
  lemma CallsStay(s: State, e: Event)
    requires Enabled(s, e) && !OfCall(e) && !e.RunnerExit? && !e.CallShutdown?
    ensures Step(s, e).shutdowns == s.shutdowns
  {}

  lemma ExitSeen(s: State, c: nat)
    ensures c in Step(s, RunnerExit).shutdowns <==> c in s.shutdowns
    ensures c in s.shutdowns ==>
              Step(s, RunnerExit).shutdowns[c] == if c in s.exitWaiters then SeeExit(s.shutdowns[c]) else s.shutdowns[c]
  {}

  lemma OtherOutcomeStep(s: State, e: Event, c: nat, ok: bool)
    requires Enabled(s, e) && !OfCall(e) && ShutdownsSound(s)
    ensures CompletedAs(Step(s, e), c, ok) <==> CompletedAs(s, c, ok) || CompletesAt(s, e, c, ok)
    ensures Killed(Step(s, e), c) <==> Killed(s, c) || KillsAt(s, e, c)
  {
    if e.RunnerExit? {
      ExitSeen(s, c);
      if c in s.shutdowns { assert CallSound(s.shutdowns[c], c in s.exitWaiters); }
      hide Step, ShutdownsSound;
    } else if !e.CallShutdown? {
      CallsStay(s, e);
      hide Step, ShutdownsSound;
    } else {
      hide ShutdownsSound, Settle;
    }
  }

  lemma OutcomeStep(s: State, e: Event, c: nat, ok: bool)
    requires Enabled(s, e) && ShutdownsSound(s)
    ensures CompletedAs(Step(s, e), c, ok) <==> CompletedAs(s, c, ok) || CompletesAt(s, e, c, ok)
    ensures Killed(Step(s, e), c) <==> Killed(s, c) || KillsAt(s, e, c)
  {
    if !OfCall(e) {
      hide Step, Enabled, ShutdownsSound;
      OtherOutcomeStep(s, e, c, ok);
    } else if e.call == c {
      assert c in s.shutdowns;
      hide Step, Enabled, CallSound;
      OwnOutcomeStep(s, e, c, ok);
    } else {
      hide Step, Enabled, ShutdownsSound;
      OtherCallsStay(s, e, c);
    }
  }

  lemma RunStart(states: seq<State>, events: seq<Event>)
    requires IsRun(states, events)
    ensures |states| == |events| + 1 && forall c :: c !in states[0].shutdowns
  {
    hide Step, Enabled;
  }

  lemma NothingYet(s: State, c: nat, ok: bool)
    requires c !in s.shutdowns
    ensures !CompletedAs(s, c, ok) && !Killed(s, c)
  {}

  /** On every schedule a shutdown succeeds exactly if the runner's exit or the report that it is not alive came
      while it raced, or its kill succeeded; it fails exactly if its kill failed; and it kills exactly if its
      deadline or a failing probe or quit came while it raced. */
  lemma {:induction false} ShutdownExactly(states: seq<State>, events: seq<Event>, n: nat, c: nat, ok: bool)
    requires IsRun(states, events) && n < |states|
    ensures CompletedAs(states[n], c, ok) <==> exists k :: 0 <= k < n && CompletesAt(states[k], events[k], c, ok)
    ensures Killed(states[n], c) <==> exists k :: 0 <= k < n && KillsAt(states[k], events[k], c)
    decreases n
  {
    hide *;
    RunStart(states, events);
    if n > 0 {
      RunStep(states, events, n);
      ShutdownExactly(states, events, n - 1, c, ok);
      SoundCalls(states[n - 1]);
      OutcomeStep(states[n - 1], events[n - 1], c, ok);
    } else {
      NothingYet(states[0], c, ok);
    }
  }

  lemma SoundCalls(s: State)
    requires Sound(s)
    ensures ShutdownsSound(s)
  {}

  /** Its deadline passes, its probe finds the runner dead, its waiter sees the exit. */
  lemma KnowledgeStep(s: State, e: Event, c: nat)
    requires Enabled(s, e) && c in s.shutdowns
    ensures c in Step(s, e).shutdowns
    ensures var call, next := s.shutdowns[c], Step(s, e).shutdowns[c];
            && (next.timedOut <==> call.timedOut || e == Deadline(c))
            && (next.notAlive <==> call.notAlive || e == AliveReply(c, false))
            && (next.didExit <==> call.didExit || (e.RunnerExit? && c in s.exitWaiters))
  {
    if OfCall(e) && e.call != c {
      OtherCallsStay(s, e, c);
      hide Step, Enabled;
    } else if OfCall(e) {
      OwnKnowledge(s, e, c);
      hide Step, Enabled;
    } else {
      hide Complete, Settle;
    }
  }

  lemma OwnKnowledge(s: State, e: Event, c: nat)
    requires Enabled(s, e) && OfCall(e) && e.call == c && c in s.shutdowns
    ensures c in Step(s, e).shutdowns
    ensures var call, next := s.shutdowns[c], Step(s, e).shutdowns[c];
            && (next.timedOut <==> call.timedOut || e == Deadline(c))
            && (next.notAlive <==> call.notAlive || e == AliveReply(c, false))
            && next.didExit == call.didExit
  {}

  lemma NewCall(s: State, e: Event, c: nat)
    requires Enabled(s, e) && c !in s.shutdowns && c in Step(s, e).shutdowns
    ensures e == Event.CallShutdown(c)
    ensures var call := Step(s, e).shutdowns[c];
            !call.timedOut && !call.notAlive && !call.didExit && call.timer && IsRacing(Step(s, e), c)
  {}

  /** On every schedule a shutdown counts as late, dead or exited exactly after its deadline, the report of its probe
      or an exit seen by its waiter, and its deadline comes once. */
  lemma {:induction false} KnownExactly(states: seq<State>, events: seq<Event>, n: nat, c: nat)
    requires IsRun(states, events) && n < |states| && c in states[n].shutdowns
    ensures |states| == |events| + 1
    ensures var call := states[n].shutdowns[c];
            && (call.timedOut ==> exists k :: 0 <= k < n && events[k] == Deadline(c))
            && (call.notAlive ==> exists k :: 0 <= k < n && events[k] == AliveReply(c, false))
            && (call.didExit ==> exists k :: 0 <= k < n && events[k].RunnerExit? && c in states[k].exitWaiters)
    ensures n < |events| && events[n] == Deadline(c) ==>
              c in states[n + 1].shutdowns && states[n + 1].shutdowns[c].timedOut && !states[n + 1].shutdowns[c].timer
    ensures n < |events| && events[n] == AliveReply(c, false) ==>
              c in states[n + 1].shutdowns && states[n + 1].shutdowns[c].notAlive
    decreases n
  {
    RunStart(states, events);
    if n < |events| {
      RunStep(states, events, n + 1);
      if events[n] == Deadline(c) { DeadlineOnce(states[n], events[n], c); }
      KnowledgeStep(states[n], events[n], c);
    }
    RunStep(states, events, n);
    hide Step, Enabled, Sound, IsRun;
    if c in states[n - 1].shutdowns {
      KnowledgeStep(states[n - 1], events[n - 1], c);
      KnownExactly(states, events, n - 1, c);
    } else {
      NewCall(states[n - 1], events[n - 1], c);
    }
  }

  lemma DeadlineOnce(s: State, e: Event, c: nat)
    requires Enabled(s, e) && e == Deadline(c)
    ensures c in Step(s, e).shutdowns && !Step(s, e).shutdowns[c].timer
  {}

  /** A live runner is told to quit exactly if its shutdown still races when the probe is answered. */
  lemma QuitExactly(states: seq<State>, events: seq<Event>, n: nat, c: nat, alive: bool)
    requires IsRun(states, events) && n < |events| && events[n] == AliveReply(c, alive)
    ensures c in states[n].shutdowns
    ensures if alive && IsRacing(states[n], c)
            then states[n + 1].lines == states[n].lines + [states[n].sequence + 1]
                 && states[n + 1].shutdowns[c].quits == states[n].shutdowns[c].quits + 1
            else states[n + 1].lines == states[n].lines
                 && states[n + 1].shutdowns[c].quits == states[n].shutdowns[c].quits
  {
    RunSound(states, events, n);
    assert CallSound(states[n].shutdowns[c], c in states[n].exitWaiters);
  }

  // ---------------------------------------------------------------------------------------------
  // The client object
  // ---------------------------------------------------------------------------------------------

  /** What loses the race of a call. */
  function Lost(s: State, c: nat, late: bool): Event
    requires c in s.shutdowns
  {
    if late then Deadline(c) else if s.shutdowns[c].graceful.Probing? then AliveFailed(c) else QuitFailed(c)
  }

  class Client {
    var pending: set<nat>
    var timers: set<nat>
    var sequence: nat
    var exitWaiters: set<nat>
    var sends: set<nat>
    var shutdowns: map<nat, Shutdown>
    ghost var settled: multiset<Settlement>
    ghost var lines: seq<nat>
    ghost var requests: set<nat>

    ghost function View(): State
      reads this
    {
      State(pending, timers, sequence, exitWaiters, sends, shutdowns, settled, lines, requests)
    }

    /** What every schedule keeps; the theorems above say what follows from it. */
    ghost predicate Valid()
      reads this
    {
      Sound(View())
    }

    constructor ()
      ensures View() == INITIAL
      ensures Valid()
    {
      pending, timers, sequence, exitWaiters, sends, shutdowns := {}, {}, 0, {}, {}, map[];
      settled, lines, requests := multiset{}, [], {};
    }

    /** request */
    method SendRequest() returns (id: nat)
      requires Valid()
      modifies this
      ensures Valid()
      ensures View() == Step(old(View()), Request) && id == sequence
    {
      hide Sound;
      StepSound(View(), Request);
      sequence := sequence + 1;
      id := sequence;
      timers := timers + {id};
      pending := pending + {id};
      sends := sends + {id};
      lines := lines + [id];
      requests := requests + {id};
    }

    /** The timer callback of a request. */
    method OnTimeout(id: nat)
      requires Enabled(View(), Timeout(id))
      requires Valid()
      modifies this
      ensures Valid()
      ensures View() == Step(old(View()), Timeout(id))
    {
      hide Sound;
      StepSound(View(), Timeout(id));
      timers := timers - {id};
      pending := pending - {id};
      settled := settled + multiset{Settlement(id, Rejected)};
    }

    /** A request's stdin write went through. */
    method OnSent(id: nat)
      requires Enabled(View(), SendDone(id))
      requires Valid()
      modifies this
      ensures Valid()
      ensures View() == Step(old(View()), SendDone(id))
    {
      hide Sound;
      StepSound(View(), SendDone(id));
      sends := sends - {id};
    }

    /** The catch handler of a request's stdin write. */
    method OnSendFailed(id: nat)
      requires Enabled(View(), SendFailed(id))
      requires Valid()
      modifies this
      ensures Valid()
      ensures View() == Step(old(View()), SendFailed(id))
    {
      hide Sound;
      StepSound(View(), SendFailed(id));
      sends := sends - {id};
      if id !in pending { return; }
      pending := pending - {id};
      timers := timers - {id};
      settled := settled + multiset{Settlement(id, Rejected)};
    }

    /** handleFrame */
    method HandleFrame(frame: Frame)
      requires Valid()
      modifies this
      ensures Valid()
      ensures View() == Step(old(View()), FrameArrived(frame))
    {
      hide Sound;
      StepSound(View(), FrameArrived(frame));
      if frame.Ignored? || frame.StateFrame? || frame.ProgressFrame? { return; }
      if frame.id !in pending { return; }
      pending := pending - {frame.id};
      timers := timers - {frame.id};
      if frame.success {
        settled := settled + multiset{Settlement(frame.id, Resolved)};
      } else {
        settled := settled + multiset{Settlement(frame.id, Rejected)};
      }
    }

    /** Reject every pending request, in no particular order, then forget them. */
    method RejectPending()
      modifies this`pending, this`timers, this`settled
      ensures pending == {} && timers == old(timers) - old(pending)
      ensures settled == old(settled) + multiset(set id | id in old(pending) :: Settlement(id, Rejected))
    {
      var entries := pending;
      while entries != {}
        invariant entries <= pending && pending == old(pending)
        invariant timers == old(timers) - (pending - entries)
        invariant settled == old(settled) + multiset(set id | id in pending - entries :: Settlement(id, Rejected))
        decreases entries
      {
        var id :| id in entries;
        timers := timers - {id};
        settled := settled + multiset{Settlement(id, Rejected)};
        RejectedOneMore(pending - entries, id);
        assert pending - (entries - {id}) == (pending - entries) + {id};
        entries := entries - {id};
      }
      assert pending - entries == pending;
      pending := {};
    }

    /** Call every exit waiter, then forget them. */
    method WakeWaiters()
      modifies this`shutdowns, this`exitWaiters
      ensures exitWaiters == {} && shutdowns.Keys == old(shutdowns).Keys
      ensures forall c :: c in shutdowns ==>
                shutdowns[c] == if c in old(exitWaiters) then SeeExit(old(shutdowns)[c]) else old(shutdowns)[c]
    {
      var waiters := exitWaiters;
      while waiters != {}
        invariant waiters <= exitWaiters && exitWaiters == old(exitWaiters) && shutdowns.Keys == old(shutdowns).Keys
        invariant forall c :: c in shutdowns ==>
          shutdowns[c] == if c in exitWaiters && c !in waiters then SeeExit(old(shutdowns)[c]) else old(shutdowns)[c]
        decreases waiters
      {
        var c :| c in waiters;
        if c in shutdowns { shutdowns := shutdowns[c := SeeExit(shutdowns[c])]; }
        waiters := waiters - {c};
      }
      exitWaiters := {};
    }

    /** The runner-exit listener. */
    method OnRunnerExit()
      requires Valid()
      modifies this
      ensures Valid()
      ensures View() == Step(old(View()), RunnerExit)
    {
      hide Sound;
      StepSound(View(), RunnerExit);
      ghost var after := Step(View(), RunnerExit);
      RejectPending();
      WakeWaiters();
      assert shutdowns == after.shutdowns;
    }

    /** shutdown, up to its first await. */
    method CallShutdown(call: nat)
      requires Enabled(View(), Event.CallShutdown(call))
      requires Valid()
      modifies this
      ensures Valid()
      ensures View() == Step(old(View()), Event.CallShutdown(call))
    {
      hide Sound;
      StepSound(View(), Event.CallShutdown(call));
      exitWaiters := exitWaiters + {call};
      shutdowns := shutdowns[call := Shutdown(Probing, Racing, false, false, true, false, false, 0, 0, false)];
    }

    /** Store a call; one that has settled takes its exit waiter with it. */
    method Store(c: nat, call: Shutdown)
      modifies this
      ensures View() == SetCall(old(View()), c, call)
    {
      shutdowns := shutdowns[c := call];
      if call.outer.Completed? { exitWaiters := exitWaiters - {c}; }
    }

    /** graceful, resumed with the answer to its alive probe. */
    method OnAlive(c: nat, alive: bool)
      requires Enabled(View(), AliveReply(c, alive))
      requires Valid()
      modifies this
      ensures Valid()
      ensures View() == Step(old(View()), AliveReply(c, alive))
    {
      hide Sound;
      StepSound(View(), AliveReply(c, alive));
      hide SetCall, Complete;
      var call := shutdowns[c];
      call := call.(notAlive := call.notAlive || !alive);
      if !alive || call.finished || call.didExit {
        call := call.(graceful := Over);
        if call.outer.Racing? { call := Complete(call, true); }
        Store(c, call);
        return;
      }
      sequence := sequence + 1;
      lines := lines + [sequence];
      Store(c, call.(graceful := Sending, quits := call.quits + 1,
                     lateQuit := call.lateQuit || call.timedOut || call.didExit));
    }

    /** graceful, resumed after its quit was written. */
    method OnQuitSent(c: nat)
      requires Enabled(View(), QuitSent(c))
      requires Valid()
      modifies this
      ensures Valid()
      ensures View() == Step(old(View()), QuitSent(c))
    {
      hide Sound;
      StepSound(View(), QuitSent(c));
      hide SetCall;
      Store(c, shutdowns[c].(graceful := AwaitingExit));
    }

    /** The race's rejection by `graceful`, or by the deadline when `late`. */
    method OnRaceLost(c: nat, late: bool)
      requires c in shutdowns && !shutdowns[c].outer.Completed?
      requires if late then shutdowns[c].timer else shutdowns[c].graceful.Probing? || shutdowns[c].graceful.Sending?
      requires Valid()
      modifies this
      ensures Valid()
      ensures View() == Step(old(View()), Lost(old(View()), c, late))
    {
      hide Sound;
      StepSound(View(), Lost(View(), c, late));
      var call := shutdowns[c];
      if late {
        call := call.(timer := false, timedOut := true);
      } else {
        call := call.(graceful := Over);
      }
      if call.outer.Racing? { call := Kill(call); }
      shutdowns := shutdowns[c := call];
    }

    /** The answer to kill. */
    method OnKilled(c: nat, ok: bool)
      requires Enabled(View(), KillReply(c, ok))
      requires Valid()
      modifies this
      ensures Valid()
      ensures View() == Step(old(View()), KillReply(c, ok))
    {
      hide Sound;
      StepSound(View(), KillReply(c, ok));
      Store(c, Complete(shutdowns[c], ok));
    }
  }

  lemma RejectedOneMore(done: set<nat>, id: nat)
    requires id !in done
    ensures multiset(set i | i in done + {id} :: Settlement(i, Rejected))
         == multiset(set i | i in done :: Settlement(i, Rejected)) + multiset{Settlement(id, Rejected)}
  {
    var before := set i | i in done :: Settlement(i, Rejected);
    assert (set i | i in done + {id} :: Settlement(i, Rejected)) == before + {Settlement(id, Rejected)};
    assert Settlement(id, Rejected) !in before;
  }
}
