/** The shell's queue of instance changes and remote-access toggles: a chain of promises in which every
    task is attached to the previous one's caught promise. */
module ConnectionQueue {
  import opened Wrappers

  datatype Mode = Local | Remote

  datatype Kind = Change(target: Mode) | Toggle

  /** `proceeding`: a toggle that got past its opening checks; a change always does. */
  datatype Status = Waiting | Running(proceeding: bool) | Settled(ok: bool)

  /** A queued task, and the one whose caught promise its `then` was attached to. */
  datatype Task = Task(kind: Kind, after: Option<nat>, status: Status)

  datatype Mark = Began(task: nat) | Ended(task: nat)

  /** `tail` is the queue entry whose caught promise connectionChange holds, `switching` is
      desktopCaptureSwitching, `log` is history. */
  datatype State = State(tasks: seq<Task>, tail: Option<nat>, switching: int, mode: Mode, log: seq<Mark>)

  /** `otherwise`: every check of a toggle but the one on the mode passes. */
  datatype Event =
    | Enqueue(kind: Kind)
    | Begin(task: nat, otherwise: bool)
    | ApplyMode(task: nat)
    | Finish(task: nat, ok: bool)

  predicate Attached(s: State, i: nat)
    requires i < |s.tasks|
  {
    s.tasks[i].after.None?
    || (s.tasks[i].after.value < |s.tasks| && s.tasks[s.tasks[i].after.value].status.Settled?)
  }

  predicate Enabled(s: State, e: Event) {
    match e
    case Enqueue(_) => true
    case Begin(i, _) => i < |s.tasks| && s.tasks[i].status.Waiting? && Attached(s, i)
    case ApplyMode(i) => i < |s.tasks| && s.tasks[i].status.Running? && s.tasks[i].kind.Change?
    case Finish(i, _) => i < |s.tasks| && s.tasks[i].status.Running?
  }

  function SetStatus(s: State, i: nat, status: Status): State
    requires i < |s.tasks|
  {
    s.(tasks := s.tasks[i := s.tasks[i].(status := status)])
  }

  function Step(s: State, e: Event): State
    requires Enabled(s, e)
  {
    match e
    case Enqueue(kind) =>
      s.(tasks := s.tasks + [Task(kind, s.tail, Waiting)], tail := Some(|s.tasks|),
         switching := if kind.Change? then s.switching + 1 else s.switching)
    case Begin(i, otherwise) =>
      var proceeding := s.tasks[i].kind.Change? || (s.mode.Local? && otherwise);
      SetStatus(s, i, Running(proceeding)).(log := s.log + [Began(i)])
    case ApplyMode(i) => s.(mode := s.tasks[i].kind.target)
    case Finish(i, ok) =>
      SetStatus(s, i, Settled(ok)).(
        switching := if s.tasks[i].kind.Change? then s.switching - 1 else s.switching, log := s.log + [Ended(i)])
  }

  ghost predicate Initial(s: State) {
    s == State([], None, 0, s.mode, [])
  }

  ghost predicate IsRun(states: seq<State>, events: seq<Event>) {
    && |states| == |events| + 1 && Initial(states[0])
    && forall i :: 0 <= i < |events| ==> Enabled(states[i], events[i]) && states[i + 1] == Step(states[i], events[i])
  }

  /** How many instance changes have not settled. */
  function OpenChanges(tasks: seq<Task>): nat {
    if tasks == [] then 0
    else
      var last := tasks[|tasks| - 1];
      OpenChanges(tasks[..|tasks| - 1]) + if last.kind.Change? && !last.status.Settled? then 1 else 0
  }

  function MarkAt(k: nat): Mark {
    if k % 2 == 0 then Began(k / 2) else Ended(k / 2)
  }

  /** Began(0), Ended(0), Began(1), Ended(1), ... */
  ghost predicate Alternates(log: seq<Mark>) {
    forall k :: 0 <= k < |log| ==> log[k] == MarkAt(k)
  }

  /** The log alternates beginnings and endings in call order, and says which tasks ran so far. */
  ghost predicate Sound(s: State) {
    && Alternates(s.log) && |s.log| <= 2 * |s.tasks|
    && s.tail == (if s.tasks == [] then None else Some(|s.tasks| - 1))
    && (forall i :: 0 <= i < |s.tasks| ==>
          && s.tasks[i].after == (if i == 0 then None else Some(i - 1))
          && (s.tasks[i].status.Settled? <==> 2 * i + 1 < |s.log|)
          && (s.tasks[i].status.Running? <==> 2 * i + 1 == |s.log|))
    && s.switching == OpenChanges(s.tasks)
    && (forall i :: 0 <= i < |s.tasks| && s.tasks[i].kind.Toggle? && s.tasks[i].status == Running(true) ==>
          s.mode.Local?)
  }

  lemma {:induction false} OpenChangesUpdate(tasks: seq<Task>, i: nat, status: Status)
    requires i < |tasks|
    ensures OpenChanges(tasks[i := tasks[i].(status := status)])
         == OpenChanges(tasks)
            - (if tasks[i].kind.Change? && !tasks[i].status.Settled? then 1 else 0)
            + (if tasks[i].kind.Change? && !status.Settled? then 1 else 0)
  {
    var updated := tasks[i := tasks[i].(status := status)];
    var n := |tasks| - 1;
    if i < n {
      OpenChangesUpdate(tasks[..n], i, status);
      assert updated[..n] == tasks[..n][i := tasks[i].(status := status)];
    } else {
      assert updated[..n] == tasks[..n];
    }
  }

  lemma EnqueueSound(s: State, kind: Kind)
    requires Sound(s)
    ensures Sound(Step(s, Enqueue(kind)))
  {
    var s' := Step(s, Enqueue(kind));
    assert s'.tasks[..|s.tasks|] == s.tasks;
    forall i | 0 <= i < |s'.tasks|
      ensures s'.tasks[i].status.Settled? <==> 2 * i + 1 < |s.log|
      ensures s'.tasks[i].status.Running? <==> 2 * i + 1 == |s.log|
    {}
  }

  lemma MarkOf(i: nat)
    ensures MarkAt(2 * i) == Began(i) && MarkAt(2 * i + 1) == Ended(i)
  {}

  lemma BeginSound(s: State, i: nat, otherwise: bool)
    requires Sound(s) && Enabled(s, Begin(i, otherwise))
    ensures Sound(Step(s, Begin(i, otherwise)))
  {
    hide OpenChanges;
    var s' := Step(s, Begin(i, otherwise));
    assert i > 0 ==> s.tasks[i - 1].status.Settled?;
    assert |s.log| == 2 * i;
    MarkOf(i);
    OpenChangesUpdate(s.tasks, i, s'.tasks[i].status);
  }

  lemma FinishSound(s: State, i: nat, ok: bool)
    requires Sound(s) && Enabled(s, Finish(i, ok))
    ensures Sound(Step(s, Finish(i, ok)))
  {
    hide OpenChanges;
    assert |s.log| == 2 * i + 1;
    MarkOf(i);
    OpenChangesUpdate(s.tasks, i, Settled(ok));
  }

  /** A change that sets the mode is the only task running, so no toggle sees it happen. */
  lemma ApplyModeSound(s: State, i: nat)
    requires Sound(s) && Enabled(s, ApplyMode(i))
    ensures Sound(Step(s, ApplyMode(i)))
  {
    assert 2 * i + 1 == |s.log|;
  }

  lemma StepSound(s: State, e: Event)
    requires Sound(s) && Enabled(s, e)
    ensures Sound(Step(s, e))
  {
    hide Sound, Step;
    match e
    case Enqueue(kind) => EnqueueSound(s, kind);
    case Begin(i, otherwise) => BeginSound(s, i, otherwise);
    case ApplyMode(i) => ApplyModeSound(s, i);
    case Finish(i, ok) => FinishSound(s, i, ok);
  }

  lemma {:induction false} RunSound(states: seq<State>, events: seq<Event>, n: nat)
    requires IsRun(states, events) && n < |states|
    ensures Sound(states[n])
    decreases n
  {
    if n > 0 {
      RunSound(states, events, n - 1);
      assert states[n - 1 + 1] == Step(states[n - 1], events[n - 1]);
      StepSound(states[n - 1], events[n - 1]);
    }
  }

  /** In every run tasks execute one at a time in call order, whether or not earlier ones failed, and the
      capture code sees exactly the changes that have not settled. */
  lemma OneAtATimeInOrder(states: seq<State>, events: seq<Event>, n: nat)
    requires IsRun(states, events) && n < |states|
    ensures var s := states[n];
            && Alternates(s.log)
            && (forall i, j :: 0 <= i < j < |s.tasks| && !s.tasks[j].status.Waiting? ==> s.tasks[i].status.Settled?)
            && s.switching == OpenChanges(s.tasks)
  {
    RunSound(states, events, n);
  }

  /** The queue never stalls: if nothing runs, the first task that has not settled may begin. */
  lemma NeverStalls(states: seq<State>, events: seq<Event>, n: nat, i: nat)
    requires IsRun(states, events) && n < |states| && i < |states[n].tasks|
    requires !states[n].tasks[i].status.Settled?
    requires forall j :: 0 <= j < i ==> states[n].tasks[j].status.Settled?
    ensures states[n].tasks[i].status.Running? || Enabled(states[n], Begin(i, true))
  {
    RunSound(states, events, n);
  }

  /** A toggle that goes on to stop or start the local server runs entirely in local mode. */
  lemma TogglesStayLocal(states: seq<State>, events: seq<Event>, n: nat, i: nat)
    requires IsRun(states, events) && n < |states| && i < |states[n].tasks|
    requires states[n].tasks[i].kind.Toggle? && states[n].tasks[i].status == Running(true)
    ensures states[n].mode.Local?
  {
    RunSound(states, events, n);
  }

  // ---------------------------------------------------------------------------------------------
  // What becomes of a task, and of the mode
  // ---------------------------------------------------------------------------------------------

  lemma RunStep(states: seq<State>, events: seq<Event>, n: nat)
    requires IsRun(states, events) && 0 < n < |states|
    ensures |states| == |events| + 1 && Sound(states[n - 1])
    ensures Enabled(states[n - 1], events[n - 1]) && states[n] == Step(states[n - 1], events[n - 1])
  {
    RunSound(states, events, n - 1);
    hide Sound, Step, Enabled;
    assert states[n - 1 + 1] == Step(states[n - 1], events[n - 1]);
  }

  predicate SettledAs(s: State, i: nat, ok: bool) {
    i < |s.tasks| && s.tasks[i].status == Settled(ok)
  }

  predicate RunsAs(s: State, i: nat, proceeding: bool) {
    i < |s.tasks| && s.tasks[i].status == Running(proceeding)
  }

  /** The task begins, and goes on: always if it changes the instance, a toggle only in local mode and if its other
      checks pass. */
  predicate BeginsAs(s: State, e: Event, i: nat, proceeding: bool) {
    && e.Begin? && e.task == i && i < |s.tasks|
    && (proceeding <==> s.tasks[i].kind.Change? || (s.mode.Local? && e.otherwise))
  }

  lemma TaskStep(s: State, e: Event, i: nat, ok: bool)
    requires Enabled(s, e)
    ensures SettledAs(Step(s, e), i, ok) <==> SettledAs(s, i, ok) || e == Finish(i, ok)
    ensures RunsAs(Step(s, e), i, ok) <==> BeginsAs(s, e, i, ok) || (RunsAs(s, i, ok) && !(e.Finish? && e.task == i))
  {}

  /** In every run a task settles as its own end says, and goes on running as it began. */
  lemma {:induction false} TaskExactly(states: seq<State>, events: seq<Event>, n: nat, i: nat, ok: bool)
    requires IsRun(states, events) && n < |states|
    ensures SettledAs(states[n], i, ok) <==> exists k :: 0 <= k < n && events[k] == Finish(i, ok)
    ensures RunsAs(states[n], i, ok) ==> exists k :: 0 <= k < n && BeginsAs(states[k], events[k], i, ok)
    ensures n < |events| && BeginsAs(states[n], events[n], i, ok) ==> RunsAs(states[n + 1], i, ok)
    decreases n
  {
    if n < |events| && BeginsAs(states[n], events[n], i, ok) {
      RunStep(states, events, n + 1);
      TaskStep(states[n], events[n], i, ok);
    }
    if n > 0 {
      RunStep(states, events, n);
      hide Step, Enabled, Sound, SettledAs, RunsAs, BeginsAs, IsRun;
      TaskExactly(states, events, n - 1, i, ok);
      TaskStep(states[n - 1], events[n - 1], i, ok);
    }
  }

  /** The target of a change that is applied. */
  function Applied(s: State, e: Event): Option<Mode> {
    if e.ApplyMode? && e.task < |s.tasks| && s.tasks[e.task].kind.Change? then Some(s.tasks[e.task].kind.target)
    else None
  }

  /** In every run the mode is the target of the change applied last, or the first mode. */
  lemma {:induction false} ModeExactly(states: seq<State>, events: seq<Event>, n: nat)
    requires IsRun(states, events) && n < |states|
    ensures |states| == |events| + 1
    ensures || (states[n].mode == states[0].mode && forall k :: 0 <= k < n ==> Applied(states[k], events[k]).None?)
            || exists k :: && 0 <= k < n && Applied(states[k], events[k]) == Some(states[n].mode)
                           && forall m :: k < m < n ==> Applied(states[m], events[m]).None?
    decreases n
  {
    if n > 0 {
      RunStep(states, events, n);
      ModeExactly(states, events, n - 1);
      ModeStep(states[n - 1], events[n - 1]);
      hide Step, Enabled, Sound, Applied, IsRun;
    }
  }

  lemma ModeStep(s: State, e: Event)
    requires Enabled(s, e)
    ensures Step(s, e).mode == if Applied(s, e).Some? then Applied(s, e).value else s.mode
  {}

  /** The module-level variables and the functions that queue on them. */
  class Shell {
    var tasks: seq<Task>
    var connectionChange: Option<nat>
    var desktopCaptureSwitching: int
    var mode: Mode
    ghost var log: seq<Mark>

    ghost function View(): State
      reads this
    {
      State(tasks, connectionChange, desktopCaptureSwitching, mode, log)
    }

    /** What every schedule keeps; the theorems above say what follows from it. */
    ghost predicate Valid()
      reads this
    {
      Sound(View())
    }

    constructor (mode: Mode)
      ensures Initial(View()) && this.mode == mode
      ensures Valid()
    {
      tasks, connectionChange, desktopCaptureSwitching, log := [], None, 0, [];
      this.mode := mode;
    }

    method ChangeInstanceConnection(target: Mode)
      requires Valid()
      modifies this
      ensures Valid()
      ensures View() == Step(old(View()), Enqueue(Change(target)))
    {
      hide Sound;
      StepSound(View(), Enqueue(Change(target)));
      desktopCaptureSwitching := desktopCaptureSwitching + 1;
      tasks := tasks + [Task(Change(target), connectionChange, Waiting)];
      connectionChange := Some(|tasks| - 1);
    }

    method ToggleRemoteAccess()
      requires Valid()
      modifies this
      ensures Valid()
      ensures View() == Step(old(View()), Enqueue(Toggle))
    {
      hide Sound;
      StepSound(View(), Enqueue(Toggle));
      tasks := tasks + [Task(Toggle, connectionChange, Waiting)];
      connectionChange := Some(|tasks| - 1);
    }

    method BeginTask(i: nat, otherwise: bool)
      requires Enabled(View(), Begin(i, otherwise))
      requires Valid()
      modifies this
      ensures Valid()
      ensures View() == Step(old(View()), Begin(i, otherwise))
    {
      hide Sound;
      StepSound(View(), Begin(i, otherwise));
      var proceeding := true;
      if tasks[i].kind.Toggle? {
        if mode.Remote? || !otherwise { proceeding := false; }
      }
      tasks := tasks[i := tasks[i].(status := Running(proceeding))];
      log := log + [Began(i)];
    }

    /** The task that is running selects its instance. */
    method SetMode(i: nat)
      requires Enabled(View(), ApplyMode(i))
      requires Valid()
      modifies this
      ensures Valid()
      ensures View() == Step(old(View()), ApplyMode(i))
    {
      hide Sound;
      StepSound(View(), ApplyMode(i));
      mode := tasks[i].kind.target;
    }

    method FinishTask(i: nat, ok: bool)
      requires Enabled(View(), Finish(i, ok))
      requires Valid()
      modifies this
      ensures Valid()
      ensures View() == Step(old(View()), Finish(i, ok))
    {
      hide Sound;
      StepSound(View(), Finish(i, ok));
      if tasks[i].kind.Change? { desktopCaptureSwitching := desktopCaptureSwitching - 1; }
      tasks := tasks[i := tasks[i].(status := Settled(ok))];
      log := log + [Ended(i)];
    }
  }
}
