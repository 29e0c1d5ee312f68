/** The Discord presence refresh queue: calls share one drain, and a drain polls again while calls arrive.
    One event is one call, or the settling of one poll with the microtasks it releases. */
module PresenceQueue {
  import opened Wrappers

  /** A poll: how many calls had been made when it started, and the drain (promise) it works for. */
  datatype Poll = Poll(calls: nat, promise: nat)

  /** `inFlight` and `requested` are the queue's variables. The rest is history: polls in the order they
      started, those not yet settled, the promise each call was given, how many promises exist, the poll
      whose result each resolved promise carries, and the rejected promises. */
  datatype State = State(inFlight: Option<nat>, requested: bool, polls: seq<Poll>, running: set<nat>,
                         calls: seq<nat>, promises: nat, resolved: map<nat, nat>, rejected: set<nat>)

  /** `throws` says that the poll an event would start throws synchronously instead of returning a promise. */
  datatype Event =
    | Call(throws: bool)
    | PollResolved(poll: nat, throws: bool)
    | PollRejected(poll: nat)

  const INITIAL := State(None, false, [], {}, [], 0, map[], {})

  predicate Enabled(s: State, e: Event) {
    e.Call? || e.poll in s.running
  }

  /** One round of the drain loop: clear `requested` and poll. */
  function StartPoll(s: State, promise: nat): State {
    s.(requested := false, polls := s.polls + [Poll(|s.calls|, promise)], running := s.running + {|s.polls|})
  }

  function Step(s: State, e: Event): State
    requires Enabled(s, e)
    requires !e.Call? ==> e.poll < |s.polls|
  {
    match e
    case Call(throws) =>
      if s.inFlight.Some? then s.(requested := true, calls := s.calls + [s.inFlight.value])
      else
        var promise := s.promises;
        var called := s.(calls := s.calls + [promise], promises := promise + 1, inFlight := Some(promise));
        // A synchronous throw runs the drain's `finally` before `inFlight` is assigned.
        if throws then called.(requested := false, rejected := s.rejected + {promise}) else StartPoll(called, promise)
    case PollResolved(q, throws) =>
      var promise := s.polls[q].promise;
      var polled := s.(running := s.running - {q});
      if !s.requested then polled.(resolved := s.resolved[promise := q], inFlight := None)
      else if throws then polled.(requested := false, rejected := s.rejected + {promise}, inFlight := None)
      else StartPoll(polled, promise)
    case PollRejected(q) =>
      s.(running := s.running - {q}, rejected := s.rejected + {s.polls[q].promise}, inFlight := None)
  }

  ghost predicate IsRun(states: seq<State>, events: seq<Event>) {
    && |states| == |events| + 1 && states[0] == INITIAL
    && forall i :: 0 <= i < |events| ==>
         && Enabled(states[i], events[i]) && (!events[i].Call? ==> events[i].poll < |states[i].polls|)
         && states[i + 1] == Step(states[i], events[i])
  }

  /** A call found the queue idle and its poll threw synchronously. */
  ghost predicate ThrewAtStart(states: seq<State>, events: seq<Event>, n: nat)
    requires n < |states| == |events| + 1
  {
    exists k :: 0 <= k < n && events[k] == Call(true) && states[k].inFlight.None?
  }

  // ---------------------------------------------------------------------------------------------
  // Invariant
  // ---------------------------------------------------------------------------------------------

  /** No drain will ever clear `inFlight` again. */
  ghost predicate Stuck(s: State) {
    s.inFlight.Some? && s.running == {}
  }

  ghost predicate Busy(s: State) {
    && |s.polls| > 0 && s.running == {|s.polls| - 1} && s.inFlight == Some(s.polls[|s.polls| - 1].promise)
    && (!s.requested ==> s.polls[|s.polls| - 1].calls == |s.calls|)
    && s.inFlight.value !in s.resolved && s.inFlight.value !in s.rejected
  }

  ghost predicate Sound(s: State) {
    && (s.inFlight.None? ==> s.running == {})
    && (s.inFlight.Some? ==> s.inFlight.value < s.promises
                             && (Busy(s) || (s.running == {} && s.inFlight.value in s.rejected)))
    && |s.polls| + (if s.requested && s.running != {} then 1 else 0) <= |s.calls|
    && (forall i :: 0 <= i < |s.calls| ==> s.calls[i] < s.promises)
    && (forall q :: 0 <= q < |s.polls| ==> s.polls[q].promise < s.promises && s.polls[q].calls <= |s.calls|)
    && (forall p :: p in s.resolved ==>
          && p < s.promises && p !in s.rejected && s.resolved[p] < |s.polls| && s.polls[s.resolved[p]].promise == p
          && forall i :: 0 <= i < |s.calls| && s.calls[i] == p ==> i < s.polls[s.resolved[p]].calls)
    && (forall p :: p in s.rejected ==> p < s.promises)
    && (forall p :: 0 <= p < s.promises && p !in s.resolved && p !in s.rejected ==> s.inFlight == Some(p))
  }

  lemma CallSound(s: State, throws: bool)
    requires Sound(s)
    ensures Sound(Step(s, Call(throws)))
  {}

  lemma SettledSound(s: State, e: Event)
    requires Sound(s) && !e.Call? && Enabled(s, e)
    ensures e.poll == |s.polls| - 1 && Sound(Step(s, e))
  {
    assert Busy(s);
    if e.PollResolved? && s.requested && !e.throws {
      DrainGoesOn(s, e);
    } else {
      DrainEnds(s, e);
    }
  }

  lemma DrainGoesOn(s: State, e: Event)
    requires Sound(s) && Busy(s) && e.PollResolved? && Enabled(s, e) && s.requested && !e.throws
    ensures e.poll == |s.polls| - 1 && Sound(Step(s, e))
  {
    var s' := Step(s, e);
    assert s.running - {e.poll} == {} && s'.running == {|s'.polls| - 1};
    assert Busy(s');
  }

  lemma DrainEnds(s: State, e: Event)
    requires Sound(s) && Busy(s) && !e.Call? && Enabled(s, e)
    requires e.PollResolved? ==> !s.requested || e.throws
    ensures e.poll == |s.polls| - 1 && Sound(Step(s, e))
  {
    assert s.running - {e.poll} == {};
  }

  lemma StepSound(s: State, e: Event)
    requires Sound(s) && Enabled(s, e)
    ensures !e.Call? ==> e.poll < |s.polls| && s.inFlight == Some(s.polls[e.poll].promise)
    ensures Sound(Step(s, e))
  {
    if e.Call? { CallSound(s, e.throws); } else { SettledSound(s, e); }
  }

  lemma {:induction false} RunSound(states: seq<State>, events: seq<Event>, n: nat)
    requires IsRun(states, events) && n < |states|
    ensures Sound(states[n])
    decreases n
  {
    if n > 0 {
      RunSound(states, events, n - 1);
      assert states[n - 1 + 1] == Step(states[n - 1], events[n - 1]);
      StepSound(states[n - 1], events[n - 1]);
    }
  }

  // ---------------------------------------------------------------------------------------------
  // What every schedule guarantees
  // ---------------------------------------------------------------------------------------------

  /** There are never two polls in flight and never more polls than calls, and a promise is settled one way
      at most. */
  lemma PollsSerialized(states: seq<State>, events: seq<Event>, n: nat)
    requires IsRun(states, events) && n < |states|
    ensures var s := states[n];
            && |s.running| <= 1 && |s.polls| <= |s.calls|
            && forall p :: p in s.resolved ==> p !in s.rejected
  {
    RunSound(states, events, n);
    var s := states[n];
    if Busy(s) { assert s.running == {|s.polls| - 1}; }
  }

  /** Freshness: whoever shares a promise that resolves gets the result of a poll that started at or after
      their call. */
  lemma ResultsAreFresh(states: seq<State>, events: seq<Event>, n: nat, i: nat)
    requires IsRun(states, events) && n < |states| && i < |states[n].calls|
    requires states[n].calls[i] in states[n].resolved
    ensures var s := states[n];
            && s.resolved[s.calls[i]] < |s.polls|
            && i < s.polls[s.resolved[s.calls[i]]].calls
  {
    RunSound(states, events, n);
  }

  /** No wake-up is lost: a promise that was handed out and is not settled has a poll working for it. */
  lemma UnsettledIsPolling(states: seq<State>, events: seq<Event>, n: nat, i: nat)
    requires IsRun(states, events) && n < |states| && i < |states[n].calls|
    requires states[n].calls[i] !in states[n].resolved && states[n].calls[i] !in states[n].rejected
    ensures exists q :: q in states[n].running
                && q < |states[n].polls| && states[n].polls[q].promise == states[n].calls[i]
  {
    RunSound(states, events, n);
    var s := states[n];
    assert s.inFlight == Some(s.calls[i]) && Busy(s);
    assert |s.polls| - 1 in s.running;
  }

  /** After a rejected poll the queue is idle again, and the next call starts a fresh drain of its own. */
  lemma RejectionRecovers(states: seq<State>, events: seq<Event>, n: nat)
    requires IsRun(states, events) && n + 1 < |events|
    requires events[n].PollRejected? && events[n + 1] == Call(false)
    ensures var before, after := states[n + 1], states[n + 2];
            && before.inFlight.None? && before.running == {}
            && |after.polls| == |before.polls| + 1 && after.running == {|before.polls|}
            && after.polls[|before.polls|] == Poll(|after.calls|, after.calls[|after.calls| - 1])
            && after.calls[|after.calls| - 1] == before.promises
  {
    RunSound(states, events, n);
    RunSound(states, events, n + 1);
    assert states[n + 1] == Step(states[n], events[n]);
    assert states[n + 1 + 1] == Step(states[n + 1], events[n + 1]);
  }

  lemma StuckStays(s: State, e: Event)
    requires Sound(s) && Stuck(s) && Enabled(s, e)
    ensures e.Call? && Stuck(Step(s, e)) && Step(s, e).inFlight == s.inFlight && Step(s, e).polls == s.polls
  {}

  lemma OnlyThrowsStick(s: State, e: Event)
    requires Sound(s) && !Stuck(s) && Enabled(s, e) && (!e.Call? ==> e.poll < |s.polls|)
    ensures Stuck(Step(s, e)) <==> e == Call(true) && s.inFlight.None?
  {
    var s' := Step(s, e);
    if e.Call? {
      if s.inFlight.None? && !e.throws { assert |s.polls| in s'.running; }
    } else {
      SettledSound(s, e);
      if e.PollResolved? && s.requested && !e.throws { assert |s.polls| in s'.running; }
    }
  }

  /** The queue gets stuck exactly when a poll throws synchronously on a call that found it idle: from then
      on every call is given that rejected promise and nothing polls again. */
  lemma {:induction false} StuckExactlyAfterThrow(states: seq<State>, events: seq<Event>, n: nat)
    requires IsRun(states, events) && n < |states|
    ensures Stuck(states[n]) <==> ThrewAtStart(states, events, n)
    decreases n
  {
    if n > 0 {
      RunSound(states, events, n - 1);
      StuckExactlyAfterThrow(states, events, n - 1);
      var s, e := states[n - 1], events[n - 1];
      assert states[n - 1 + 1] == Step(s, e);
      if Stuck(s) {
        StuckStays(s, e);
        var k :| 0 <= k < n - 1 && events[k] == Call(true) && states[k].inFlight.None?;
        assert ThrewAtStart(states, events, n);
      } else {
        OnlyThrowsStick(s, e);
      }
    }
  }

  // ---------------------------------------------------------------------------------------------
  // Which way a promise settles
  // ---------------------------------------------------------------------------------------------

  predicate WorksFor(s: State, poll: nat, promise: nat) {
    poll < |s.polls| && s.polls[poll].promise == promise
  }

  /** A poll of the promise's drain brings its result, and no call came since that poll started. */
  predicate ResolvesAt(s: State, e: Event, promise: nat, poll: nat) {
    e.PollResolved? && e.poll == poll && WorksFor(s, poll, promise) && s.polls[poll].calls == |s.calls|
  }

  /** A poll of its drain is rejected, or the next poll throws at once: behind another, or on a call that found the
      queue idle and made the promise. */
  predicate RejectsAt(s: State, e: Event, promise: nat) {
    || (e.PollRejected? && WorksFor(s, e.poll, promise))
    || (e.PollResolved? && e.throws && WorksFor(s, e.poll, promise) && s.polls[e.poll].calls < |s.calls|)
    || (e == Call(true) && s.inFlight.None? && s.promises == promise)
  }

  /** `requested` is up exactly if a call came since the running poll started. */
  ghost predicate RequestsKnown(s: State) {
    Busy(s) ==> (s.requested <==> s.polls[|s.polls| - 1].calls < |s.calls|)
  }

  lemma KnownStep(s: State, e: Event)
    requires Sound(s) && RequestsKnown(s) && Enabled(s, e) && (!e.Call? ==> e.poll < |s.polls|)
    ensures RequestsKnown(Step(s, e))
  {}

  lemma SettlementStep(s: State, e: Event, promise: nat, poll: nat)
    requires Sound(s) && RequestsKnown(s) && Enabled(s, e) && (!e.Call? ==> e.poll < |s.polls|)
    ensures var s' := Step(s, e);
            && ((promise in s'.resolved && s'.resolved[promise] == poll)
                <==> (promise in s.resolved && s.resolved[promise] == poll) || ResolvesAt(s, e, promise, poll))
            && (promise in s'.rejected <==> promise in s.rejected || RejectsAt(s, e, promise))
  {
    if !e.Call? { assert Busy(s); }
  }

  lemma RunStep(states: seq<State>, events: seq<Event>, n: nat)
    requires IsRun(states, events) && 0 < n < |states|
    ensures |states| == |events| + 1 && Sound(states[n - 1]) && Enabled(states[n - 1], events[n - 1])
    ensures !events[n - 1].Call? ==> events[n - 1].poll < |states[n - 1].polls|
    ensures states[n] == Step(states[n - 1], events[n - 1])
  {
    RunSound(states, events, n - 1);
    hide Sound, Enabled;
    assert states[n - 1 + 1] == Step(states[n - 1], events[n - 1]);
  }

  lemma {:induction false} RunKnown(states: seq<State>, events: seq<Event>, n: nat)
    requires IsRun(states, events) && n < |states|
    ensures RequestsKnown(states[n])
    decreases n
  {
    hide *;
    RunStart(states, events);
    if n > 0 {
      RunStep(states, events, n);
      RunKnown(states, events, n - 1);
      KnownStep(states[n - 1], events[n - 1]);
    }
  }

  /** On every schedule a promise resolves with a poll's result exactly if that poll of its drain brought one and no
      call had come since it started; it is rejected exactly if a poll of its drain was, or one threw. */
  lemma {:induction false} SettledExactly(states: seq<State>, events: seq<Event>, n: nat, promise: nat, poll: nat)
    requires IsRun(states, events) && n < |states|
    ensures (promise in states[n].resolved && states[n].resolved[promise] == poll)
       <==> exists k :: 0 <= k < n && ResolvesAt(states[k], events[k], promise, poll)
    ensures promise in states[n].rejected <==> exists k :: 0 <= k < n && RejectsAt(states[k], events[k], promise)
    decreases n
  {
    hide *;
    RunStart(states, events);
    if n > 0 {
      RunStep(states, events, n);
      RunKnown(states, events, n - 1);
      SettledExactly(states, events, n - 1, promise, poll);
      SettlementStep(states[n - 1], events[n - 1], promise, poll);
    }
  }

  lemma RunStart(states: seq<State>, events: seq<Event>)
    requires IsRun(states, events)
    ensures |states| == |events| + 1 && states[0].resolved == map[] && states[0].rejected == {}
    ensures RequestsKnown(states[0])
  {
    hide Step, Enabled;
  }

  /** Calls share the promise of the drain under way; a call that finds none makes the next promise and polls. */
  lemma CallsShare(states: seq<State>, events: seq<Event>, n: nat)
    requires IsRun(states, events) && n < |events| && events[n].Call?
    ensures var s, s' := states[n], states[n + 1];
            && s'.calls == s.calls + [if s.inFlight.Some? then s.inFlight.value else s.promises]
            && s'.promises == s.promises + (if s.inFlight.Some? then 0 else 1)
            && (|s'.polls| > |s.polls| <==> s.inFlight.None? && !events[n].throws)
  {
    RunStep(states, events, n + 1);
    hide IsRun, Sound;
  }

  // ---------------------------------------------------------------------------------------------
  // The queue object
  // ---------------------------------------------------------------------------------------------

  class Queue {
    var inFlight: Option<nat>
    var requested: bool
    ghost var polls: seq<Poll>
    ghost var running: set<nat>
    ghost var calls: seq<nat>
    var promises: nat
    ghost var resolved: map<nat, nat>
    ghost var rejected: set<nat>

    ghost function View(): State
      reads this
    {
      State(inFlight, requested, polls, running, calls, promises, resolved, rejected)
    }

    /** What every schedule keeps; the theorems above say what follows from it. */
    ghost predicate Valid()
      reads this
    {
      Sound(View())
    }

    constructor ()
      ensures View() == INITIAL
      ensures Valid()
    {
      inFlight, requested, promises := None, false, 0;
      polls, running, calls, resolved, rejected := [], {}, [], map[], {};
    }

    /** drain, from the top of its loop to the next await. */
    method Drain(promise: nat)
      modifies this
      ensures View() == StartPoll(old(View()), promise)
    {
      requested := false;
      running := running + {|polls|};
      polls := polls + [Poll(|calls|, promise)];
    }

    /** The function the queue hands out; the result names the promise returned. */
    method Refresh(throws: bool) returns (promise: nat)
      requires Valid()
      modifies this
      ensures Valid()
      ensures View() == Step(old(View()), Call(throws))
      ensures calls == old(calls) + [promise]
    {
      StepSound(View(), Call(throws));
      requested := true;
      if inFlight.None? {
        promise := promises;
        promises := promises + 1;
        calls := calls + [promise];
        if throws {
          requested := false;
          rejected := rejected + {promise};
        } else {
          Drain(promise);
        }
        inFlight := Some(promise);
      } else {
        promise := inFlight.value;
        calls := calls + [promise];
      }
    }

    /** drain, resumed with a poll's result: loop while more was requested. */
    method OnPollResolved(q: nat, throws: bool)
      requires Valid() && Enabled(View(), PollResolved(q, throws)) && q < |polls|
      modifies this
      ensures Valid()
      ensures View() == Step(old(View()), PollResolved(q, throws))
    {
      StepSound(View(), PollResolved(q, throws));
      hide Sound;
      var promise := inFlight.value;
      running := running - {q};
      if requested {
        if throws {
          requested := false;
          rejected := rejected + {promise};
          inFlight := None;
        } else {
          Drain(promise);
        }
      } else {
        resolved := resolved[promise := q];
        inFlight := None;
      }
    }

    /** drain, resumed with a poll's rejection. */
    method OnPollRejected(q: nat)
      requires Valid() && Enabled(View(), PollRejected(q)) && q < |polls|
      modifies this
      ensures Valid()
      ensures View() == Step(old(View()), PollRejected(q))
    {
      StepSound(View(), PollRejected(q));
      hide Sound;
      running := running - {q};
      rejected := rejected + {inFlight.value};
      inFlight := None;
    }
  }
}
